/** The shape of the splitter's output, and exactly when it is the intended one. */
module FileSplitTheorems {
  import opened Prelude
  import opened FileSplit

  /** The chunks of a log, in order. */
  function Chunks(log: seq<Happening>): (cs: seq<Bytes>)
    ensures |cs| <= |log|
  {
    if log == [] then [] else
    var n := |log| - 1;
    Chunks(log[..n]) + if log[n].Chunk? then [log[n].data] else []
  }

  lemma ChunksGrow(log: seq<Happening>, h: Happening)
    ensures Chunks(log + [h]) == Chunks(log) + if h.Chunk? then [h.data] else []
  {
    assert (log + [h])[..|log|] == log;
  }

  predicate OnlyChunks(log: seq<Happening>) {
    forall i :: 0 <= i < |log| ==> log[i].Chunk?
  }

  /** As many chunks as happenings: there was no interruption. */
  lemma {:induction false} AllChunks(log: seq<Happening>)
    ensures |Chunks(log)| == |log| <==> OnlyChunks(log)
  {
    if log != [] {
      var n := |log| - 1;
      AllChunks(log[..n]);
      if OnlyChunks(log) {
        assert OnlyChunks(log[..n]);
      }
      if OnlyChunks(log[..n]) && log[n].Chunk? {
        assert forall i :: 0 <= i < n ==> log[i] == log[..n][i];
      }
    }
  }

  lemma {:induction false} ChunksOfFront(log: seq<Happening>, m: nat)
    requires m <= |log| && OnlyChunks(log[..m])
    ensures m <= |Chunks(log)|
    decreases |log|
  {
    if m < |log| {
      var n := |log| - 1;
      assert log[..n][..m] == log[..m];
      ChunksOfFront(log[..n], m);
    } else {
      assert log[..m] == log;
      AllChunks(log);
    }
  }

  // ------------------------------------------------------------------ what is seen, in figures

  /** How many bytes of the source a log has read. */
  function Size(log: seq<Happening>): nat {
    if log == [] then 0 else (if log[0].Chunk? then |log[0].data| else 0) + Size(log[1..])
  }

  /** Read number i, if the loop gets beyond it, is interrupted or returns the next bytes of the
    source: as many as the script offers, but at least one, at most a buffer, and at most what is
    left. */
  ghost predicate ReadsOn(src: Bytes, cap: nat, script: seq<Reply>, seen: seq<Happening>, i: nat)
    requires i < |seen|
  {
    var at := Size(seen[..i]);
    && at <= |src| && !FailedAt(script, i) && (seen[i].ReadAgain? <==> InterruptedAt(script, i))
    && (seen[i].Chunk? ==>
          var len := |seen[i].data|;
          && 0 < len <= cap && at + len <= |src| && seen[i].data == src[at..at + len]
          && var offered := if i < |script| && script[i].n > 0 then script[i].n else if i < |script| then 1 else cap;
          && len == Least(offered, Least(cap, |src| - at)))
  }

  lemma {:induction false} SeenExactly(src: Bytes, cap: nat, script: seq<Reply>, i: nat)
    requires cap > 0 && i < |Seen(src, cap, script)|
    ensures ReadsOn(src, cap, script, Seen(src, cap, script), i)
    decreases i
  {
    var seen := Seen(src, cap, script);
    var a := Answer(script, Least(|src|, cap));
    var n := if a.Moved? then a.n else 0;
    assert src[0..] == src && src[0..n] == src[..n];
    if i == 0 {
      assert seen[..0] == [];
    } else {
      SeenExactly(src[n..], cap, Rest(script), i - 1);
      ReadsOnLater(src, cap, script, seen[0], seen[1..], i, n);
      assert seen == [seen[0]] + seen[1..];
    }
  }

  /** What is seen later, seen from the start. */
  lemma ReadsOnLater(src: Bytes, cap: nat, script: seq<Reply>, h: Happening, rest: seq<Happening>, i: nat, n: nat)
    requires 0 < i <= |rest| && n == (if h.Chunk? then |h.data| else 0) && n <= |src|
    requires ReadsOn(src[n..], cap, Rest(script), rest, i - 1)
    ensures ReadsOn(src, cap, script, [h] + rest, i)
  {
    var seen := [h] + rest;
    assert seen[..i] == [h] + rest[..i - 1];
    assert seen[..i][1..] == rest[..i - 1];
    var at := Size(rest[..i - 1]);
    assert Size(seen[..i]) == n + at && seen[i] == rest[i - 1];
    assert i < |script| ==> Rest(script)[i - 1] == script[i];
    if rest[i - 1].Chunk? {
      Later(src, n, at, |rest[i - 1].data|);
    }
  }

  lemma Later(src: Bytes, n: nat, at: nat, len: nat)
    requires n + at + len <= |src|
    ensures src[n..][at..at + len] == src[n + at..n + at + len]
  {
  }

  /** And the loop ends at a read error or, with all read, at the first read that is not
    interrupted. */
  lemma {:induction false} SeenEnds(src: Bytes, cap: nat, script: seq<Reply>)
    requires cap > 0
    ensures var seen := Seen(src, cap, script);
            Size(seen) <= |src| &&
            (FailedAt(script, |seen|) || (Size(seen) == |src| && !InterruptedAt(script, |seen|)))
    decreases |script|, |src|
  {
    match Answer(script, Least(|src|, cap))
    case Error =>
    case Again => SeenEnds(src, cap, Rest(script));
    case Moved(n) =>
      if n > 0 {
        SeenEnds(src[n..], cap, Rest(script));
      }
  }

  /** The scripts leave one outcome only: where the loop stops, why, what is in the files and what
    is lost. */
  lemma OneOutcome(seen: seq<Happening>, readScript: seq<Reply>, writes: seq<Reply>, opens: seq<bool>,
                   log: seq<Happening>, end: Ending, files: seq<Bytes>, lost: Bytes,
                   log': seq<Happening>, end': Ending, files': seq<Bytes>, lost': Bytes)
    requires forall i :: 0 <= i < |seen| && seen[i].Chunk? ==> seen[i].data != []
    requires Explained(seen, log, end, files, lost) && Caused(seen, log, end, lost, readScript, writes, opens)
    requires Explained(seen, log', end', files', lost') && Caused(seen, log', end', lost', readScript, writes, opens)
    ensures log == log' && end == end' && files == files' && lost == lost'
  {
    hide Layout, Contents, Append, Take, WritesLeft;
    if |log| < |log'| {
      NotBoth(seen, log, end, lost, log', end', lost', readScript, writes, opens);
    } else if |log'| < |log| {
      NotBoth(seen, log', end', lost', log, end, lost, readScript, writes, opens);
    }
    assert log == seen[..|log|] && log' == seen[..|log'|];
  }

  /** What stops the loop early does not go through. */
  lemma NotBoth(seen: seq<Happening>, log: seq<Happening>, end: Ending, lost: Bytes,
                log': seq<Happening>, end': Ending, lost': Bytes,
                readScript: seq<Reply>, writes: seq<Reply>, opens: seq<bool>)
    requires forall i :: 0 <= i < |seen| && seen[i].Chunk? ==> seen[i].data != []
    requires Caused(seen, log, end, lost, readScript, writes, opens)
    requires Caused(seen, log', end', lost', readScript, writes, opens)
    ensures |log'| <= |log|
  {
    hide Layout, Take, WritesLeft, Opens;
    if |log| < |log'| {
      WentThrough(seen, log, log', writes, opens);
    }
  }

  lemma WentThrough(seen: seq<Happening>, log: seq<Happening>, log': seq<Happening>,
                    writes: seq<Reply>, opens: seq<bool>)
    requires log <= seen && log' <= seen && |log| < |log'|
    requires forall i {:trigger log'[i]} :: 0 <= i < |log'| ==> GoesThrough(log'[..i], log'[i], writes, opens)
    ensures GoesThrough(log, seen[|log|], writes, opens)
  {
    assert log'[..|log|] == log && log'[|log|] == seen[|log|];
  }

  // ------------------------------------------------------------------ the intended shape

  /** Every file but the last holds three chunks, and the last at most three. */
  predicate Regular(files: seq<seq<Bytes>>) {
    && files != []
    && (forall k :: 0 <= k < |files| - 1 ==> |files[k]| == 3)
    && |files[|files| - 1]| <= 3
  }

  /** The number of the first chunk of the last of the files that `n` chunks fill. */
  function LastStart(n: nat): nat {
    if n == 0 then 0 else (n - 1) / 3 * 3
  }

  /** Nothing is interrupted up to the first chunk of the last file, unless that is also the
    first file, and no chunk comes third after it. */
  predicate Undisturbed(log: seq<Happening>, last: nat) {
    && (last > 0 ==> last < |log| && OnlyChunks(log[..last + 1]))
    && (last + 3 < |log| ==> log[last + 3].ReadAgain?)
  }

  /** What is known of a regular layout of `n` chunks after `len` happenings: how many files
    there are, how many chunks the last one holds, and that the counter has counted every
    happening since that file was started. */
  predicate Counted(p: Placed, n: nat, len: nat) {
    && p.files != []
    && LastStart(n) == 3 * (|p.files| - 1)
    && |p.files[|p.files| - 1]| == n - LastStart(n)
    && p.num == len - LastStart(n)
  }

  lemma LastStartIs(n: nat)
    ensures LastStart(n) == if n == 0 then 0 else (n - 1) / 3 * 3
  {
  }

  lemma LastStartNext(n: nat)
    ensures LastStart(n) <= n <= LastStart(n) + 3 && (n > 0 ==> LastStart(n) < n)
    ensures LastStart(n + 1) == if n == LastStart(n) + 3 then n else LastStart(n)
  {
  }

  lemma RegularPlace(p: Placed, h: Happening)
    requires p.files != []
    ensures var last := p.files[|p.files| - 1];
            Regular(Place(p, h).files) <==>
              Regular(p.files) && (h.Chunk? ==> if p.num == 3 then |last| == 3 else |last| < 3)
  {
    var q, n := Place(p, h), |p.files| - 1;
    if h.Chunk? {
      if p.num == 3 {
        assert forall k :: 0 <= k < n ==> q.files[k] == p.files[k];
        assert q.files[n] == p.files[n];
      } else {
        assert forall k :: 0 <= k < n ==> q.files[k] == p.files[k];
      }
    }
  }

  lemma CountedPlace(p: Placed, h: Happening, n: nat, len: nat)
    requires Counted(p, n, len)
    requires h.Chunk? ==> var last := p.files[|p.files| - 1]; if p.num == 3 then |last| == 3 else |last| < 3
    ensures Counted(Place(p, h), n + Bit(h.Chunk?), len + 1)
  {
    hide LastStart;
    LastStartNext(n);
  }

  lemma UndisturbedByAgain(log: seq<Happening>, last: nat)
    requires last == 0 || last < |log|
    ensures Undisturbed(log + [ReadAgain], last) <==> Undisturbed(log, last)
  {
    var all := log + [ReadAgain];
    if last > 0 {
      assert all[..last + 1] == log[..last + 1];
    }
    assert last + 3 < |log| ==> all[last + 3] == log[last + 3];
  }

  /** A chunk that goes where it should disturbs nothing: to a new file when the last one holds
    three, and otherwise not to a new file. */
  lemma UndisturbedByChunk(log: seq<Happening>, c: Bytes)
    ensures var n := |Chunks(log)|;
            var last := LastStart(n);
            Undisturbed(log + [Chunk(c)], LastStart(n + 1)) <==>
              Undisturbed(log, last) && if |log| == last + 3 then n == last + 3 else n < last + 3
  {
    hide LastStart, OnlyChunks, Chunks;
    var n := |Chunks(log)|;
    LastStartNext(n);
    if n == LastStart(n) + 3 {
      ThirdChunkBefore(log, c, LastStart(n));
    } else {
      OtherChunkBefore(log, c, LastStart(n));
    }
  }

  lemma ThirdChunkBefore(log: seq<Happening>, c: Bytes, last: nat)
    requires |Chunks(log)| == last + 3
    ensures Undisturbed(log + [Chunk(c)], last + 3) <==> Undisturbed(log, last) && |log| == last + 3
  {
    var n, all := last + 3, log + [Chunk(c)];
    if |log| == n {
      AllChunks(log);
      assert OnlyChunks(all);
      assert all[..n + 1] == all;
    } else {
      assert all[..n + 1] == log[..n + 1];
      if OnlyChunks(log[..n + 1]) {
        ChunksOfFront(log, n + 1);
      }
    }
  }

  lemma OtherChunkBefore(log: seq<Happening>, c: Bytes, last: nat)
    requires last == 0 || last < |log|
    ensures Undisturbed(log + [Chunk(c)], last) <==> Undisturbed(log, last) && |log| != last + 3
  {
    var all := log + [Chunk(c)];
    if last > 0 {
      assert all[..last + 1] == log[..last + 1];
    }
    if |log| >= last + 3 {
      assert all[last + 3] == if |log| == last + 3 then Chunk(c) else log[last + 3];
    }
  }

  ghost predicate ShapeKnown(log: seq<Happening>) {
    var p, n := Layout(log), |Chunks(log)|;
    (Regular(p.files) <==> Undisturbed(log, LastStart(n))) && (Regular(p.files) ==> Counted(p, n, |log|))
  }

  lemma ShapeAfterAgain(log: seq<Happening>)
    requires ShapeKnown(log)
    ensures ShapeKnown(log + [ReadAgain])
  {
    hide Regular, Undisturbed, LastStart, Layout, Chunks, Counted;
    var p, n := Layout(log), |Chunks(log)|;
    LayoutGrows(log, ReadAgain);
    ChunksGrow(log, ReadAgain);
    RegularPlace(p, ReadAgain);
    LastStartNext(n);
    UndisturbedByAgain(log, LastStart(n));
    if Regular(p.files) {
      CountedPlace(p, ReadAgain, n, |log|);
    }
  }

  lemma ShapeAfterChunk(log: seq<Happening>, c: Bytes)
    requires ShapeKnown(log)
    ensures ShapeKnown(log + [Chunk(c)])
  {
    hide Regular, Undisturbed, LastStart, Layout, Chunks, Place;
    var p, n := Layout(log), |Chunks(log)|;
    LayoutGrows(log, Chunk(c));
    ChunksGrow(log, Chunk(c));
    RegularPlace(p, Chunk(c));
    UndisturbedByChunk(log, c);
    if Regular(Place(p, Chunk(c)).files) {
      CountedPlace(p, Chunk(c), n, |log|);
    }
  }

  /** The files have the intended shape exactly when the log is undisturbed. */
  lemma {:induction false} RegularIff(log: seq<Happening>)
    ensures ShapeKnown(log)
    decreases |log|
  {
    hide ShapeKnown;
    if log == [] {
      RegularAtFirst();
    } else {
      var n := |log| - 1;
      assert log == log[..n] + [log[n]];
      RegularIff(log[..n]);
      match log[n]
      case ReadAgain => ShapeAfterAgain(log[..n]);
      case Chunk(c) => ShapeAfterChunk(log[..n], c);
    }
  }

  lemma RegularAtFirst()
    ensures ShapeKnown([])
  {
  }

  lemma {:induction false} OnlyChunksAt(src: Bytes, cap: nat, script: seq<Reply>, m: nat)
    requires cap > 0 && m <= |Seen(src, cap, script)|
    ensures OnlyChunks(Seen(src, cap, script)[..m]) <==> forall i :: 0 <= i < m ==> !InterruptedAt(script, i)
  {
    var seen := Seen(src, cap, script);
    forall i | 0 <= i < m ensures seen[..m][i].Chunk? <==> !InterruptedAt(script, i) {
      SeenAt(src, cap, script, i);
    }
  }

  /** Exactly when the output has the intended shape, in terms of the reads. Let `last` be the
    number of the first chunk of the last file that the chunks should fill. Then no read up to
    and including number `last` may be interrupted (unless there is to be one file only), and
    read number `last` + 3, if there is one, must be. */
  lemma RegularExactly(src: Bytes, cap: nat, script: seq<Reply>)
    requires cap > 0
    ensures var seen := Seen(src, cap, script);
            var n := |Chunks(seen)|;
            var last := if n == 0 then 0 else (n - 1) / 3 * 3;
            Regular(Layout(seen).files) <==>
              && (last > 0 ==> forall i :: 0 <= i <= last ==> !InterruptedAt(script, i))
              && (last + 3 < |seen| ==> InterruptedAt(script, last + 3))
  {
    hide Seen, Layout, Chunks, LastStart, Regular, OnlyChunks;
    var seen := Seen(src, cap, script);
    var last := LastStart(|Chunks(seen)|);
    LastStartIs(|Chunks(seen)|);
    RegularIff(seen);
    LastStartNext(|Chunks(seen)|);
    if last > 0 {
      OnlyChunksAt(src, cap, script, last + 1);
    }
    if last + 3 < |seen| {
      SeenAt(src, cap, script, last + 3);
    }
  }

  /** So without interrupted reads it always has. */
  lemma UninterruptedIsRegular(src: Bytes, cap: nat, script: seq<Reply>)
    requires cap > 0 && forall i :: 0 <= i < |script| ==> !script[i].Interrupted?
    ensures var seen := Seen(src, cap, script); OnlyChunks(seen) && Regular(Layout(seen).files)
  {
    hide Seen, Layout, LastStart, Regular;
    var seen := Seen(src, cap, script);
    assert seen[..|seen|] == seen;
    OnlyChunksAt(src, cap, script, |seen|);
    AllChunks(seen);
    LastStartNext(|Chunks(seen)|);
    LastStartIs(|Chunks(seen)|);
    RegularExactly(src, cap, script);
  }

  // ------------------------------------------------------------------ which chunk is where

  /** The chunks of all files, file by file. */
  function Flat(files: seq<seq<Bytes>>): seq<Bytes> {
    if files == [] then [] else Flat(files[..|files| - 1]) + files[|files| - 1]
  }

  lemma FlatPlace(p: Placed, h: Happening)
    requires p.files != []
    ensures Flat(Place(p, h).files) == Flat(p.files) + if h.Chunk? then [h.data] else []
  {
    var q, n := Place(p, h).files, |p.files| - 1;
    if h.Chunk? {
      if p.num == 3 {
        assert q[..n + 1] == p.files;
      } else {
        assert q[..n] == p.files[..n];
        assert Flat(p.files[..n]) + (p.files[n] + [h.data]) == Flat(p.files[..n]) + p.files[n] + [h.data];
      }
    }
  }

  /** Whatever is interrupted, the files hold the chunks in order, each once. */
  lemma {:induction false} EveryChunkOnce(log: seq<Happening>)
    ensures Flat(Layout(log).files) == Chunks(log)
    decreases |log|
  {
    if log == [] {
      var f := Layout(log).files;
      assert f == [[]] && f[..0] == [];
    } else {
      var n := |log| - 1;
      assert log == log[..n] + [log[n]];
      EveryChunkOnce(log[..n]);
      FlatPlace(Layout(log[..n]), log[n]);
    }
  }

  lemma {:induction false} FlatLength(files: seq<seq<Bytes>>)
    requires forall k :: 0 <= k < |files| ==> |files[k]| == 3
    ensures |Flat(files)| == 3 * |files|
    decreases |files|
  {
    if files != [] {
      FlatLength(files[..|files| - 1]);
    }
  }

  lemma {:induction false} FlatAt(files: seq<seq<Bytes>>, k: nat, j: nat)
    requires Regular(files) && k < |files| && j < |files[k]|
    ensures 3 * k + j < |Flat(files)| && Flat(files)[3 * k + j] == files[k][j]
    decreases |files|
  {
    var n := |files| - 1;
    FlatLength(files[..n]);
    if k < n {
      assert files[..n][k] == files[k] && |files[k]| == 3;
      FlatAt(files[..n], k, j);
    }
  }

  /** In the intended shape file k holds the chunks 3k, 3k + 1 and 3k + 2, and there are as many
    files as that takes: none is empty, except a single one if there was nothing to split. */
  lemma ThreeChunksPerFile(log: seq<Happening>)
    requires Regular(Layout(log).files)
    ensures var f, cs := Layout(log).files, Chunks(log);
            && |f| == (if cs == [] then 1 else (|cs| + 2) / 3)
            && |f[|f| - 1]| == |cs| - 3 * (|f| - 1)
            && InOrder(f, cs)
  {
    hide Layout, Regular, Chunks, Flat;
    var f := Layout(log).files;
    RegularIff(log);
    EveryChunkOnce(log);
    FileCount(|Chunks(log)|, |f|);
    forall k, j {:trigger f[k][j]} | 0 <= k < |f| && 0 <= j < |f[k]|
      ensures 3 * k + j < |Flat(f)| && f[k][j] == Flat(f)[3 * k + j]
    {
      FlatAt(f, k, j);
    }
    assert InOrder(f, Flat(f));
    assert Flat(f) == Chunks(log);
  }

  /** Chunk j of file k is chunk 3k + j of all. */
  predicate InOrder(files: seq<seq<Bytes>>, cs: seq<Bytes>) {
    forall k, j {:trigger files[k][j]} :: 0 <= k < |files| && 0 <= j < |files[k]| ==>
      3 * k + j < |cs| && files[k][j] == cs[3 * k + j]
  }

  lemma FileCount(n: nat, files: nat)
    requires LastStart(n) == 3 * (files - 1) && files > 0
    ensures files == if n == 0 then 1 else (n + 2) / 3
  {
  }

  // ------------------------------------------------------------------ how large files get

  lemma {:induction false} ConcatBound(chunks: seq<Bytes>, cap: nat)
    requires forall j :: 0 <= j < |chunks| ==> |chunks[j]| <= cap
    ensures |Concat(chunks)| <= |chunks| * cap
  {
    if chunks != [] {
      var n := |chunks| - 1;
      ConcatBound(chunks[..n], cap);
      assert |chunks| * cap == n * cap + cap;
    }
  }

  lemma {:induction false} ContentsAt(files: seq<seq<Bytes>>, k: nat)
    requires k < |files|
    ensures Contents(files)[k] == Concat(files[k])
  {
    if k < |files| - 1 {
      ContentsAt(files[..|files| - 1], k);
    }
  }

  lemma {:induction false} ChunksFit(log: seq<Happening>, cap: nat)
    requires forall i :: 0 <= i < |log| && log[i].Chunk? ==> |log[i].data| <= cap
    ensures forall i :: 0 <= i < |Chunks(log)| ==> |Chunks(log)[i]| <= cap
  {
    if log != [] {
      ChunksFit(log[..|log| - 1], cap);
    }
  }

  /** In the intended shape no file is larger than three buffers. */
  lemma FilesAreBounded(src: Bytes, cap: nat, script: seq<Reply>, k: nat)
    requires cap > 0 && Regular(Layout(Seen(src, cap, script)).files)
    requires k < |Contents(Layout(Seen(src, cap, script)).files)|
    ensures |Contents(Layout(Seen(src, cap, script)).files)[k]| <= 3 * cap
  {
    hide Layout, Contents, Concat, Seen, Chunks;
    var seen := Seen(src, cap, script);
    var f := Layout(seen).files;
    forall i | 0 <= i < |seen| && seen[i].Chunk? ensures |seen[i].data| <= cap {
      SeenAt(src, cap, script, i);
    }
    ChunksFit(seen, cap);
    ThreeChunksPerFile(seen);
    ContentsAt(f, k);
    forall j | 0 <= j < |f[k]| ensures |f[k][j]| <= cap {
      assert f[k][j] == Chunks(seen)[3 * k + j];
    }
    ConcatBound(f[k], cap);
    AtMostThree(|f[k]|, cap);
  }

  lemma AtMostThree(n: nat, cap: nat)
    requires n <= 3
    ensures n * cap <= 3 * cap
  {
  }

  // ------------------------------------------------------------------ what goes wrong otherwise

  /** The roll tests for equality: once the counter has passed 3, no new file is ever started. */
  lemma {:induction false} NeverRollsAgain(log: seq<Happening>, more: seq<Happening>)
    requires Layout(log).num > 3
    ensures |Layout(log + more).files| == |Layout(log).files| && Layout(log + more).num > 3
    decreases |more|
  {
    if more == [] {
      assert log + more == log;
    } else {
      var n := |more| - 1;
      NeverRollsAgain(log, more[..n]);
      assert log + more == (log + more[..n]) + [more[n]];
      LayoutGrows(log + more[..n], more[n]);
    }
  }

  /** So if the first interrupted read is the one after a third chunk, everything that follows
    goes to the file of that chunk, however much it is. */
  lemma InterruptionAfterThird(src: Bytes, cap: nat, script: seq<Reply>, m: nat)
    requires cap > 0 && m > 0 && 3 * m < |Seen(src, cap, script)|
    requires forall i :: 0 <= i < 3 * m ==> !InterruptedAt(script, i)
    requires InterruptedAt(script, 3 * m)
    ensures |Layout(Seen(src, cap, script)).files| == m
  {
    hide Seen, Layout, Chunks, Regular;
    var seen := Seen(src, cap, script);
    var front := seen[..3 * m];
    OnlyChunksAt(src, cap, script, 3 * m);
    SeenAt(src, cap, script, 3 * m);
    AllChunks(front);
    FullFiles(front, m);
    LayoutGrows(front, ReadAgain);
    assert seen == front + [ReadAgain] + seen[3 * m + 1..];
    NeverRollsAgain(front + [ReadAgain], seen[3 * m + 1..]);
  }

  lemma FullFiles(log: seq<Happening>, m: nat)
    requires m > 0 && |Chunks(log)| == |log| == 3 * m
    ensures |Layout(log).files| == m && Layout(log).num == 3
  {
    hide Layout, Chunks, Regular, OnlyChunks;
    AllChunks(log);
    assert LastStart(3 * m) == 3 * (m - 1);
    assert OnlyChunks(log[..3 * (m - 1) + 1]) by { FrontOnlyChunks(log, 3 * (m - 1) + 1); }
    RegularIff(log);
  }

  lemma FrontOnlyChunks(log: seq<Happening>, m: nat)
    requires OnlyChunks(log) && m <= |log|
    ensures OnlyChunks(log[..m])
  {
  }

  /** And an interruption before a third chunk makes a short file: here are four bytes, read one
    at a time, with the second read interrupted. */
  lemma ShortFile()
    ensures var src, script: seq<Reply> := [1, 2, 3, 4], [Count(1), Interrupted];
            && Seen(src, 1, script) == [Chunk([1]), ReadAgain, Chunk([2]), Chunk([3]), Chunk([4])]
            && Contents(Layout(Seen(src, 1, script)).files) == [[1, 2], [3, 4]]
            && !Regular(Layout(Seen(src, 1, script)).files)
  {
    hide Seen, Layout, Contents;
    SeenShort([1, 2, 3, 4]);
    LayoutShort([1], [2], [3], [4]);
    ContentsOfPairs([1], [2], [3], [4]);
    var first: Bytes, second: Bytes := [1, 2], [3, 4];
    assert [1] + [2] == first && [3] + [4] == second;
    var f := Layout(Seen([1, 2, 3, 4], 1, [Count(1), Interrupted])).files;
    assert |f| == 2 && |f[0]| == 2;
  }

  lemma SeenShort(src: Bytes)
    requires |src| == 4
    ensures Seen(src, 1, [Count(1), Interrupted]) ==
            [Chunk([src[0]]), ReadAgain, Chunk([src[1]]), Chunk([src[2]]), Chunk([src[3]])]
  {
    var replies := [Count(1), Interrupted];
    assert replies[1..] == [Interrupted] && replies[1..][1..] == [];
    SeenPlain(src[1..]);
    assert src[..1] == [src[0]];
  }

  /** Without replies left a source of three bytes is read byte by byte. */
  lemma SeenPlain(src: Bytes)
    requires |src| == 3
    ensures Seen(src, 1, []) == [Chunk([src[0]]), Chunk([src[1]]), Chunk([src[2]])]
  {
    var one, two := src[1..], src[1..][1..];
    assert src[..1] == [src[0]] && one[..1] == [src[1]] && two[..1] == [src[2]] && two[1..] == [];
    assert Seen([], 1, []) == [];
    assert Seen(two, 1, []) == [Chunk([src[2]])];
    assert Seen(one, 1, []) == [Chunk([src[1]]), Chunk([src[2]])];
  }

  lemma LayoutShort(a: Bytes, b: Bytes, c: Bytes, d: Bytes)
    ensures Layout([Chunk(a), ReadAgain, Chunk(b), Chunk(c), Chunk(d)]).files == [[a, b], [c, d]]
  {
    hide Layout;
    var l1: seq<Happening> := [Chunk(a)];
    var l2 := l1 + [ReadAgain];
    var l3 := l2 + [Chunk(b)];
    var l4 := l3 + [Chunk(c)];
    FirstChunk(a);
    LayoutGrows(l1, ReadAgain);
    LayoutGrows(l2, Chunk(b));
    LayoutGrows(l3, Chunk(c));
    LayoutGrows(l4, Chunk(d));
    Filled([], a, b);
    Filled([[a, b]], c, d);
    assert [] + [[a]] == [[a]] && [] + [[a, b]] == [[a, b]];
    assert [[a, b]] + [[c]] == [[a, b], [c]] && [[a, b]] + [[c, d]] == [[a, b], [c, d]];
    assert l4 + [Chunk(d)] == [Chunk(a), ReadAgain, Chunk(b), Chunk(c), Chunk(d)];
  }

  lemma Filled(fs: seq<seq<Bytes>>, a: Bytes, b: Bytes)
    ensures var f := fs + [[a]]; f[|fs| := f[|fs|] + [b]] == fs + [[a, b]]
  {
    assert [a] + [b] == [a, b];
  }

  lemma FirstChunk(a: Bytes)
    ensures Layout([Chunk(a)]) == Placed([[a]], 1)
  {
    var log: seq<Happening> := [Chunk(a)];
    var f: seq<seq<Bytes>> := [[]];
    assert log[..0] == [];
    assert Layout([]) == Placed(f, 0);
    assert f[0] + [a] == [a];
    assert Place(Placed(f, 0), Chunk(a)).files == [[a]];
  }

  lemma ContentsOfPairs(a: Bytes, b: Bytes, c: Bytes, d: Bytes)
    ensures Contents([[a, b], [c, d]]) == [a + b, c + d]
  {
    hide Contents, Concat;
    ConcatOfPair(a, b);
    ConcatOfPair(c, d);
    var f := [[a, b], [c, d]];
    ContentsAt(f, 0);
    ContentsAt(f, 1);
  }

  lemma ConcatOfPair(a: Bytes, b: Bytes)
    ensures Concat([a, b]) == a + b
  {
    assert [a, b][..1] == [a] && [a][..0] == [];
    assert Concat([]) + a == a;
  }
}
