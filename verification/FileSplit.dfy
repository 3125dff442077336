/** The file splitter of TAIR/tair_tfs/split.cc against an adversarial system.

  The system answers each read and write from a script: any positive short count, an
  interruption, or a hard error; a script that has run out answers in full. Opens answer from a
  script too. A write of a positive count never answers 0. Output files are fresh unless said
  otherwise, and file number 100 + k of the source is file k here. */
module FileSplit {
  import opened Prelude

  type Bytes = seq<bv8>

  datatype Reply = Count(n: nat) | Interrupted | Failed

  /** The outcome of a call for at most `most` bytes. */
  datatype Outcome = Moved(n: nat) | Again | Error

  function Answer(script: seq<Reply>, most: nat): (r: Outcome)
    ensures r.Moved? ==> r.n <= most && (most > 0 ==> r.n > 0)
  {
    if script == [] then Moved(most)
    else match script[0]
         case Count(n) => Moved(if n == 0 && most > 0 then 1 else if n < most then n else most)
         case Interrupted => Again
         case Failed => Error
  }

  function Rest(script: seq<Reply>): seq<Reply> {
    if script == [] then [] else script[1..]
  }

  /** The system may answer with any short count, an interruption or an error, and a script that
    has run out answers in full. */
  lemma AnyReplyIsPossible(script: seq<Reply>, most: nat)
    ensures script == [] ==> Answer(script, most) == Moved(most)
    ensures script != [] && script[0].Failed? ==> Answer(script, most) == Error
    ensures script != [] && script[0].Interrupted? ==> Answer(script, most) == Again
    ensures script != [] && script[0].Count? && 0 < script[0].n <= most ==> Answer(script, most) == Moved(script[0].n)
  {
  }

  predicate NeverFails(script: seq<Reply>) {
    forall i :: 0 <= i < |script| ==> !script[i].Failed?
  }

  predicate AllOpen(opens: seq<bool>) {
    forall i :: 0 <= i < |opens| ==> opens[i]
  }

  predicate Opens(opens: seq<bool>, k: nat) {
    k < |opens| ==> opens[k]
  }

  function Concat(files: seq<Bytes>): Bytes {
    if files == [] then [] else Concat(files[..|files| - 1]) + files[|files| - 1]
  }

  // ------------------------------------------------------------------ what the system does

  /** What became of a buffer: the bytes the system took, whether it took all, and the rest of
    its script. */
  datatype Taken = Taken(sent: Bytes, ok: bool, script: seq<Reply>)

  /** Write after write, until all of `data` is taken or a write fails. */
  function Take(script: seq<Reply>, data: Bytes): (w: Taken)
    requires data != []
    ensures w.sent <= data && (w.ok <==> w.sent == data)
    ensures NeverFails(script) ==> w.ok && NeverFails(w.script)
    decreases |script|, |data|
  {
    match Answer(script, |data|)
    case Error => Taken([], false, Rest(script))
    case Again => Take(Rest(script), data)
    case Moved(n) =>
      if n == |data| then Taken(data, true, Rest(script))
      else
        assert data[..n] + data[n..] == data;
        var w := Take(Rest(script), data[n..]); w.(sent := data[..n] + w.sent)
  }

  /** How many bytes some replies offer to take, at least one each but for interruptions. */
  function Offered(script: seq<Reply>): nat {
    if script == [] then 0
    else (match script[0] case Count(n) => if n == 0 then 1 else n case _ => 0) + Offered(script[1..])
  }

  /** What `w` has to be, in figures, with `k` replies used. None before the last of them fails, and
    they do not offer enough. Then either the last one fails and exactly the bytes offered before
    it are taken, or enough is offered, or the script has run out and the rest is taken in full. */
  ghost predicate Exactly(script: seq<Reply>, data: Bytes, w: Taken, k: nat) {
    && k <= |script| && w.script == script[k..] && (k == 0 <==> script == [])
    && (k > 0 ==> NeverFails(script[..k - 1]) && Offered(script[..k - 1]) < |data|)
    && (w.ok <==> k == 0 || !script[k - 1].Failed?)
    && (w.ok ==> w.sent == data && (k == |script| || Offered(script[..k]) >= |data|))
    && (!w.ok ==> w.sent == data[..Offered(script[..k - 1])])
  }

  lemma {:induction false} TakeExactly(script: seq<Reply>, data: Bytes)
    requires data != []
    ensures |Take(script, data).script| <= |script|
    ensures Exactly(script, data, Take(script, data), |script| - |Take(script, data).script|)
    decreases |script|, |data|
  {
    hide Exactly, Offered;
    if script == [] || Answer(script, |data|).Error? || Answer(script, |data|) == Moved(|data|) {
      LastReply(script, data);
    } else {
      var a := Answer(script, |data|);
      var n := if a.Moved? then a.n else 0;
      TakeExactly(script[1..], data[n..]);
      OfferedNow(script, |data|);
      assert data[0..] == data && data[..0] + Take(script[1..], data[n..]).sent == Take(script[1..], data[n..]).sent;
      OneMoreReply(script, data, n);
    }
  }

  /** What a reply that does not end the writing offers. */
  lemma OfferedNow(script: seq<Reply>, most: nat)
    requires script != [] && !Answer(script, most).Error? && Answer(script, most) != Moved(most)
    ensures !script[0].Failed?
    ensures Offered(script[..1]) == if Answer(script, most).Moved? then Answer(script, most).n else 0
  {
    assert script[..1][1..] == [];
  }

  lemma LastReply(script: seq<Reply>, data: Bytes)
    requires data != []
    requires script == [] || Answer(script, |data|).Error? || Answer(script, |data|) == Moved(|data|)
    ensures |Take(script, data).script| <= |script|
    ensures Exactly(script, data, Take(script, data), |script| - |Take(script, data).script|)
  {
    assert data[..0] == [];
    if script != [] {
      assert script[..0] == [] && script[..1][1..] == [];
      assert Take(script, data).script == script[1..];
    }
  }

  /** A reply that offers `n` bytes, not enough, before the rest. */
  lemma OneMoreReply(script: seq<Reply>, data: Bytes, n: nat)
    requires script != [] && !script[0].Failed? && Offered(script[..1]) == n < |data|
    requires var w := Take(script[1..], data[n..]);
             && Take(script, data) == w.(sent := data[..n] + w.sent)
             && |w.script| < |script| && Exactly(script[1..], data[n..], w, |script| - 1 - |w.script|)
    ensures Exactly(script, data, Take(script, data), |script| - |Take(script, data).script|)
  {
    hide Take, Offered;
    var w := Take(script[1..], data[n..]);
    var k := |script| - |w.script|;
    assert data[..n] + data[n..] == data;
    assert script[..0] == [];
    NothingOffered();
    if k > 1 {
      OfferedFirst(script, k - 1);
      OfferedFirst(script, k);
      assert script[k - 1] == script[1..][k - 2];
      if !w.ok {
        var m := Offered(script[1..][..k - 2]);
        assert data[..n] + data[n..][..m] == data[..n + m];
      }
    }
  }

  lemma NothingOffered()
    ensures Offered([]) == 0 && NeverFails([])
  {
  }

  lemma OfferedFirst(script: seq<Reply>, k: nat)
    requires 0 < k <= |script|
    ensures Offered(script[..k]) == Offered(script[..1]) + Offered(script[1..][..k - 1])
    ensures NeverFails(script[..k]) <==> !script[0].Failed? && NeverFails(script[1..][..k - 1])
  {
    var s, t := script[..k], script[1..][..k - 1];
    assert s[1..] == t && script[..1][1..] == [];
    assert forall i :: 0 <= i < k - 1 ==> s[i + 1] == t[i];
  }

  /** What the outer loop sees: a chunk read, or an interrupted read. */
  datatype Happening = Chunk(data: Bytes) | ReadAgain

  function Least(a: nat, b: nat): (r: nat)
    ensures r <= a && r <= b && (r == a || r == b)
  {
    if a < b then a else b
  }

  /** Read after read, until the end of the source or a read error. */
  function Seen(src: Bytes, cap: nat, script: seq<Reply>): seq<Happening>
    requires cap > 0
    decreases |script|, |src|
  {
    match Answer(script, Least(|src|, cap))
    case Error => []
    case Again => [ReadAgain] + Seen(src, cap, Rest(script))
    case Moved(n) => if n == 0 then [] else [Chunk(src[..n])] + Seen(src[n..], cap, Rest(script))
  }

  predicate InterruptedAt(script: seq<Reply>, i: nat) {
    i < |script| && script[i].Interrupted?
  }

  /** The outer loop sees an interruption exactly where the script has one, and no chunk is empty
    or larger than the buffer. */
  lemma {:induction false} SeenAt(src: Bytes, cap: nat, script: seq<Reply>, i: nat)
    requires cap > 0 && i < |Seen(src, cap, script)|
    ensures Seen(src, cap, script)[i].ReadAgain? <==> InterruptedAt(script, i)
    ensures Seen(src, cap, script)[i].Chunk? ==> 0 < |Seen(src, cap, script)[i].data| <= cap
    decreases i
  {
    if i > 0 {
      var a := Answer(script, Least(|src|, cap));
      SeenAt(if a.Moved? then src[a.n..] else src, cap, Rest(script), i - 1);
    }
  }

  // ------------------------------------------------------------------ where chunks go

  /** The chunks of each file and the counter `num`, as the outer loop leaves them. */
  datatype Placed = Placed(files: seq<seq<Bytes>>, num: nat)

  function Place(p: Placed, h: Happening): (r: Placed)
    requires p.files != []
    ensures r.files != []
  {
    var last := |p.files| - 1;
    match h
    case ReadAgain => p.(num := p.num + 1)
    case Chunk(c) =>
      if p.num == 3 then Placed(p.files + [[c]], 1)
      else Placed(p.files[last := p.files[last] + [c]], p.num + 1)
  }

  function Layout(log: seq<Happening>): (r: Placed)
    ensures r.files != []
  {
    if log == [] then Placed([[]], 0)
    else Place(Layout(log[..|log| - 1]), log[|log| - 1])
  }

  lemma LayoutGrows(log: seq<Happening>, h: Happening)
    ensures Layout(log + [h]) == Place(Layout(log), h)
  {
    assert (log + [h])[..|log|] == log;
  }

  /** The file contents of a layout. */
  function Contents(files: seq<seq<Bytes>>): (r: seq<Bytes>)
    ensures |r| == |files|
  {
    if files == [] then [] else Contents(files[..|files| - 1]) + [Concat(files[|files| - 1])]
  }

  lemma ContentsGrows(files: seq<seq<Bytes>>, c: Bytes)
    ensures Contents(files + [[c]]) == Contents(files) + [c]
    ensures files != [] ==>
              var last := |files| - 1;
              Contents(files[last := files[last] + [c]]) == Contents(files)[last := Contents(files)[last] + c]
  {
    assert (files + [[c]])[..|files|] == files;
    assert Concat([c]) == c by { assert [c][..0] == []; assert Concat([[c][0]][..0]) == []; }
    if files != [] {
      var last := |files| - 1;
      var f := files[last := files[last] + [c]];
      assert f[..last] == files[..last];
      assert (files[last] + [c])[..|files[last]|] == files[last];
      assert Concat(files[last] + [c]) == Concat(files[last]) + c;
    }
  }

  lemma ConcatGrows(files: seq<Bytes>, c: Bytes)
    ensures Concat(files + [c]) == Concat(files) + c
    ensures files != [] ==> var last := |files| - 1; Concat(files[last := files[last] + c]) == Concat(files) + c
  {
    assert (files + [c])[..|files|] == files;
    if files != [] {
      var last := |files| - 1;
      assert files[last := files[last] + c][..last] == files[..last];
    }
  }

  /** Appending bytes to the last file, or as a new file. */
  function Append(files: seq<Bytes>, c: Bytes, rolled: bool): (r: seq<Bytes>)
    requires files != []
    ensures r != []
  {
    if rolled then files + [c] else files[|files| - 1 := files[|files| - 1] + c]
  }

  lemma AppendKeepsConcat(files: seq<Bytes>, c: Bytes, rolled: bool)
    requires files != []
    ensures Concat(Append(files, c, rolled)) == Concat(files) + c
  {
    ConcatGrows(files, c);
  }

  lemma AppendKeepsLayout(log: seq<Happening>, c: Bytes)
    ensures Contents(Layout(log + [Chunk(c)]).files) == Append(Contents(Layout(log).files), c, Layout(log).num == 3)
    ensures Layout(log + [Chunk(c)]).num == if Layout(log).num == 3 then 1 else Layout(log).num + 1
  {
    LayoutGrows(log, Chunk(c));
    ContentsGrows(Layout(log).files, c);
  }

  // ------------------------------------------------------------------ the splitter

  datatype Ending = NoSource | NoFirstFile | Finished | ReadError | OpenError | WriteError

  /** read: fills the front of the buffer with the next bytes of the source. */
  method ReadChunk(src: Bytes, used: nat, buffer: array<bv8>, script: seq<Reply>)
    returns (got: Outcome, script': seq<Reply>)
    requires used <= |src|
    modifies buffer
    ensures got == Answer(script, Least(|src| - used, buffer.Length)) && script' == Rest(script)
    ensures got.Moved? ==> buffer[..got.n] == src[used..used + got.n]
  {
    got := Answer(script, Least(|src| - used, buffer.Length));
    script' := Rest(script);
    if got.Moved? {
      for i := 0 to got.n
        invariant forall k :: 0 <= k < i ==> buffer[k] == src[used + k]
      {
        buffer[i] := src[used + i];
      }
    }
  }

  /** Halfway through a buffer: `ptr` bytes are taken, and `script` says what happens next. */
  predicate Halfway(all: Taken, data: Bytes, script: seq<Reply>, ptr: nat) {
    ptr < |data| && var w := Take(script, data[ptr..]); all == w.(sent := data[..ptr] + w.sent)
  }

  lemma NothingTakenYet(data: Bytes, script: seq<Reply>)
    requires data != []
    ensures Halfway(Take(script, data), data, script, 0)
  {
    var w := Take(script, data);
    assert data[0..] == data && data[..0] + w.sent == w.sent;
  }

  lemma AfterWrite(all: Taken, data: Bytes, script: seq<Reply>, ptr: nat)
    requires Halfway(all, data, script, ptr)
    ensures match Answer(script, |data| - ptr)
            case Error => all == Taken(data[..ptr], false, Rest(script))
            case Again => Halfway(all, data, Rest(script), ptr)
            case Moved(n) =>
              if n == |data| - ptr then all == Taken(data, true, Rest(script))
              else Halfway(all, data, Rest(script), ptr + n)
  {
    hide Take, Answer, Rest;
    TakeNow(script, data[ptr..]);
    match Answer(script, |data| - ptr)
    case Error => assert data[..ptr] + [] == data[..ptr];
    case Again =>
    case Moved(n) =>
      if n == |data| - ptr {
        assert data[..ptr] + data[ptr..] == data;
      } else {
        Piece(data, ptr, n, Take(Rest(script), data[ptr + n..]).sent);
      }
  }

  /** What the next write does. */
  lemma TakeNow(script: seq<Reply>, data: Bytes)
    requires data != []
    ensures Take(script, data) ==
            match Answer(script, |data|)
            case Error => Taken([], false, Rest(script))
            case Again => Take(Rest(script), data)
            case Moved(n) =>
              if n == |data| then Taken(data, true, Rest(script))
              else var w := Take(Rest(script), data[n..]); w.(sent := data[..n] + w.sent)
  {
  }

  lemma Piece(data: Bytes, ptr: nat, n: nat, more: Bytes)
    requires ptr + n <= |data|
    ensures data[ptr..][..n] == data[ptr..ptr + n] && data[ptr..][n..] == data[ptr + n..]
    ensures data[..ptr] + (data[ptr..ptr + n] + more) == data[..ptr + n] + more
  {
    assert data[..ptr] + data[ptr..ptr + n] == data[..ptr + n];
  }

  /** The file once the first `ptr` bytes of the buffer are written to it. */
  function Grown(file: Bytes, data: Bytes, ptr: nat): Bytes
    requires ptr <= |data|
  {
    file + data[..ptr]
  }

  lemma GrownBy(file: Bytes, data: Bytes, ptr: nat, n: nat)
    requires ptr + n <= |data|
    ensures Grown(file, data, ptr) + data[ptr..ptr + n] == Grown(file, data, ptr + n)
    ensures Grown(file, data, 0) == file && Grown(file, data, |data|) == file + data
  {
    assert data[..ptr] + data[ptr..ptr + n] == data[..ptr + n];
    assert data[..|data|] == data;
  }

  /** The inner loop: writes from `ptr` what is left of the buffer, and after a short write moves
    `ptr` on and lowers `left` by as much. The file grows by exactly what the system took. */
  method WriteChunk(buffer: array<bv8>, count: nat, file: Bytes, script: seq<Reply>)
    returns (file': Bytes, ptr: nat, failed: bool, script': seq<Reply>)
    requires 0 < count <= buffer.Length
    ensures var w := Take(script, buffer[..count]);
            && file' == file + w.sent && failed == !w.ok && script' == w.script
            && (failed ==> ptr == |w.sent| < count)
  {
    hide *;
    ghost var data := buffer[..count];
    ghost var all := Take(script, data);
    NothingTakenYet(data, script);
    GrownBy(file, data, 0, 0);
    file', ptr, failed, script' := file, 0, false, script;
    var left := count;
    while true
      invariant 0 < left && ptr + left == count && !failed
      invariant file' == Grown(file, data, ptr)
      invariant Halfway(all, data, script', ptr)
      decreases |script'|, left
    {
      AfterWrite(all, data, script', ptr);
      RestShrinks(script', left);
      var wrote := Answer(script', left);
      script' := Rest(script');
      if wrote.Error? {
        failed := true;
        IsSent(file, data, ptr);
        break;
      }
      if wrote.Moved? {
        GrownBy(file, data, ptr, wrote.n);
        assert buffer[ptr..ptr + wrote.n] == data[ptr..ptr + wrote.n];
        file' := file' + buffer[ptr..ptr + wrote.n];
        if wrote.n == left {
          break;
        }
        ptr, left := ptr + wrote.n, left - wrote.n;
      }
    }
  }

  lemma IsSent(file: Bytes, data: Bytes, ptr: nat)
    requires ptr <= |data|
    ensures Grown(file, data, ptr) == file + data[..ptr]
  {
  }

  lemma RestShrinks(script: seq<Reply>, most: nat)
    ensures |Rest(script)| <= |script| && (Answer(script, most).Again? ==> |Rest(script)| < |script|)
    ensures NeverFails(script) ==> !Answer(script, most).Error? && NeverFails(Rest(script))
  {
  }

  /** The body of the outer loop for a chunk: rolls to a new file when `num` is 3, then writes
    to the last file. `lost` is the part of the buffer that was not written. */
  method CopyChunk(files: seq<Bytes>, num: nat, buffer: array<bv8>, count: nat, script: seq<Reply>, opens: seq<bool>)
    returns (files': seq<Bytes>, num': nat, stop: Option<Ending>, lost: Bytes, script': seq<Reply>)
    requires files != [] && 0 < count <= buffer.Length
    ensures files' != [] && Concat(files') + lost == Concat(files) + buffer[..count]
    ensures num' == if num == 3 then 0 else num
    ensures if num == 3 && !Opens(opens, |files|) then
              stop == Some(OpenError) && files' == files && lost == buffer[..count] && script' == script
            else
              var w := Take(script, buffer[..count]);
              && files' == Append(files, w.sent, num == 3) && script' == w.script
              && stop == (if w.ok then None else Some(WriteError)) && lost == buffer[..count][|w.sent|..]
  {
    hide Concat, Append, Take;
    files', num', stop, lost, script' := files, num, None, [], script;
    if num == 3 {
      num' := 0;
      if !Opens(opens, |files|) {
        stop, lost := Some(OpenError), buffer[..count];
        return;
      }
      files' := files' + [[]];
    }
    var last, file, ptr, failed := |files'| - 1, files'[|files'| - 1], 0, false;
    file, ptr, failed, script' := WriteChunk(buffer, count, file, script);
    files' := files'[last := file];
    ghost var sent := Take(script, buffer[..count]).sent;
    RollThenAppend(files, sent, num == 3);
    AppendKeepsConcat(files, sent, num == 3);
    if failed {
      stop, lost := Some(WriteError), buffer[ptr..count];
      Unsent(Concat(files), buffer[..count], ptr);
    } else {
      Unsent(Concat(files), buffer[..count], count);
    }
  }

  lemma RollThenAppend(files: seq<Bytes>, c: Bytes, rolled: bool)
    requires files != []
    ensures var fs := if rolled then files + [[]] else files;
            fs[|fs| - 1 := fs[|fs| - 1] + c] == Append(files, c, rolled)
  {
    assert [] + c == c;
  }

  lemma Unsent(before: Bytes, data: Bytes, n: nat)
    requires n <= |data|
    ensures before + data[..n] + data[n..] == before + data
    ensures data[..|data|] == data && before + data + [] == before + data
  {
  }

  /** How the files relate to what the outer loop has seen when it stops, after `log`. */
  predicate Explained(seen: seq<Happening>, log: seq<Happening>, end: Ending, files: seq<Bytes>, lost: Bytes) {
    var p := Layout(log);
    match end
    case OpenError =>
      log < seen && seen[|log|] == Chunk(lost) && p.num == 3 && files == Contents(p.files)
    case WriteError =>
      && log < seen && seen[|log|].Chunk?
      && var c := seen[|log|].data;
      && 0 < |lost| <= |c|
      && var k := |c| - |lost|;
      && lost == c[k..] && files == Append(Contents(p.files), c[..k], p.num == 3)
    case _ => log == seen && lost == [] && files == Contents(p.files)
  }

  predicate FailedAt(script: seq<Reply>, i: nat) {
    i < |script| && script[i].Failed?
  }

  /** The write script that the chunks of a log leave. */
  function WritesLeft(log: seq<Happening>, writes: seq<Reply>): seq<Reply> {
    if log == [] then writes else
    var n := |log| - 1;
    var left := WritesLeft(log[..n], writes);
    if log[n].Chunk? && log[n].data != [] then Take(left, log[n].data).script else left
  }

  /** A chunk goes through if the file it starts, if any, opens and the system takes all of it. */
  predicate GoesThrough(before: seq<Happening>, h: Happening, writes: seq<Reply>, opens: seq<bool>) {
    h.Chunk? && h.data != [] ==>
      && (Layout(before).num == 3 ==> Opens(opens, |Layout(before).files|))
      && Take(WritesLeft(before, writes), h.data).ok
  }

  /** Everything in the log went through, and `left` is what remains of the write script. */
  ghost predicate Smooth(log: seq<Happening>, writes: seq<Reply>, opens: seq<bool>, left: seq<Reply>) {
    && left == WritesLeft(log, writes)
    && forall i {:trigger log[i]} :: 0 <= i < |log| ==> GoesThrough(log[..i], log[i], writes, opens)
  }

  /** Why the outer loop stopped after `log`: at the first chunk whose file does not open or that
    the system does not take, and if there is none, at the read error or the end of the source. */
  ghost predicate Caused(seen: seq<Happening>, log: seq<Happening>, end: Ending, lost: Bytes,
                         readScript: seq<Reply>, writes: seq<Reply>, opens: seq<bool>) {
    && log <= seen
    && (forall i {:trigger log[i]} :: 0 <= i < |log| ==> GoesThrough(log[..i], log[i], writes, opens))
    && match end
       case OpenError =>
         && |log| < |seen| && seen[|log|].Chunk?
         && Layout(log).num == 3 && !Opens(opens, |Layout(log).files|)
       case WriteError =>
         && |log| < |seen| && seen[|log|].Chunk? && seen[|log|].data != []
         && (Layout(log).num == 3 ==> Opens(opens, |Layout(log).files|))
         && var w := Take(WritesLeft(log, writes), seen[|log|].data);
         && !w.ok && lost == seen[|log|].data[|w.sent|..]
       case ReadError => log == seen && FailedAt(readScript, |seen|)
       case Finished => log == seen && !FailedAt(readScript, |seen|)
       case _ => false
  }

  lemma SmoothMeans(log: seq<Happening>, i: nat, writes: seq<Reply>, opens: seq<bool>, left: seq<Reply>, h: Happening)
    requires Smooth(log, writes, opens, left) && i < |log|
    ensures var all := log + [h]; GoesThrough(all[..i], all[i], writes, opens)
  {
    assert (log + [h])[..i] == log[..i] && (log + [h])[i] == log[i];
    assert GoesThrough(log[..i], log[i], writes, opens);
  }

  lemma SmoothAfter(log: seq<Happening>, h: Happening, writes: seq<Reply>, opens: seq<bool>, left: seq<Reply>)
    requires Smooth(log, writes, opens, left) && GoesThrough(log, h, writes, opens)
    ensures Smooth(log + [h], writes, opens, if h.Chunk? && h.data != [] then Take(left, h.data).script else left)
  {
    var all := log + [h];
    assert all[..|log|] == log;
    forall i {:trigger all[i]} | 0 <= i < |all| ensures GoesThrough(all[..i], all[i], writes, opens) {
      if i < |log| {
        SmoothMeans(log, i, writes, opens, left, h);
      }
    }
  }

  /** What is still to be seen after one more read. */
  lemma SeenGoesOn(src: Bytes, used: nat, cap: nat, script: seq<Reply>)
    requires cap > 0 && used <= |src|
    ensures var seen := Seen(src[used..], cap, script);
            match Answer(script, Least(|src| - used, cap))
            case Error => seen == []
            case Again => seen == [ReadAgain] + Seen(src[used..], cap, Rest(script))
            case Moved(n) =>
              if n == 0 then seen == []
              else seen == [Chunk(src[used..used + n])] + Seen(src[used + n..], cap, Rest(script))
  {
    var a := Answer(script, Least(|src| - used, cap));
    if a.Moved? {
      assert src[used..][..a.n] == src[used..used + a.n] && src[used..][a.n..] == src[used + a.n..];
    }
  }

  /** Before another read: the log so far and what is still to be seen make up the whole. */
  ghost predicate UnderWay(src: Bytes, cap: nat, replies: seq<Reply>, log: seq<Happening>,
                           used: nat, script: seq<Reply>)
    requires cap > 0
  {
    && used <= |src| && Seen(src, cap, replies) == log + Seen(src[used..], cap, script)
    && script == (if |log| <= |replies| then replies[|log|..] else [])
  }

  lemma OneMore(src: Bytes, cap: nat, replies: seq<Reply>, log: seq<Happening>, used: nat, script: seq<Reply>)
    requires cap > 0 && UnderWay(src, cap, replies, log, used, script)
    ensures match Answer(script, Least(|src| - used, cap))
            case Error => log == Seen(src, cap, replies) && FailedAt(replies, |log|)
            case Again => UnderWay(src, cap, replies, log + [ReadAgain], used, Rest(script))
            case Moved(n) =>
              if n == 0 then log == Seen(src, cap, replies) && used == |src| && !FailedAt(replies, |log|)
              else
                var c := Chunk(src[used..used + n]);
                && log < Seen(src, cap, replies) && Seen(src, cap, replies)[|log|] == c
                && UnderWay(src, cap, replies, log + [c], used + n, Rest(script))
  {
    hide Seen;
    SeenGoesOn(src, used, cap, script);
    match Answer(script, Least(|src| - used, cap))
    case Error =>
    case Again => assert log + ([ReadAgain] + Seen(src[used..], cap, Rest(script))) ==
                         log + [ReadAgain] + Seen(src[used..], cap, Rest(script));
    case Moved(n) =>
      if n > 0 {
        var c, more := [Chunk(src[used..used + n])], Seen(src[used + n..], cap, Rest(script));
        assert log + (c + more) == log + c + more;
      }
  }

  lemma NothingSeenYet(src: Bytes, cap: nat, replies: seq<Reply>)
    requires cap > 0
    ensures UnderWay(src, cap, replies, [], 0, replies)
  {
    assert src[0..] == src && [] + Seen(src, cap, replies) == Seen(src, cap, replies);
  }

  /** The files and the counter are as the layout says, and the files hold what was read. */
  ghost predicate InStep(files: seq<Bytes>, num: nat, log: seq<Happening>, read: Bytes) {
    && files != [] && Concat(files) == read
    && files == Contents(Layout(log).files) && num == Layout(log).num
  }

  lemma InStepAtFirst()
    ensures InStep([[]], 0, [], [])
  {
    var none: seq<Bytes> := [[]];
    assert none[..0] == [];
    assert [none][..0] == [];
    assert Layout([]).files == [[]];
    assert Contents([[]]) == [Concat([])];
  }

  lemma InStepAfterChunk(files: seq<Bytes>, num: nat, log: seq<Happening>, read: Bytes, c: Bytes)
    requires InStep(files, num, log, read)
    ensures InStep(Append(files, c, num == 3), (if num == 3 then 0 else num) + 1, log + [Chunk(c)], read + c)
  {
    hide Concat, Contents, Layout, Append;
    AppendKeepsConcat(files, c, num == 3);
    AppendKeepsLayout(log, c);
  }

  lemma InStepAfterAgain(files: seq<Bytes>, num: nat, log: seq<Happening>, read: Bytes)
    requires InStep(files, num, log, read)
    ensures InStep(files, num + 1, log + [ReadAgain], read)
  {
    LayoutGrows(log, ReadAgain);
  }

  lemma AllSeen(files: seq<Bytes>, num: nat, log: seq<Happening>, read: Bytes, end: Ending,
                readScript: seq<Reply>, writes: seq<Reply>, opens: seq<bool>, left: seq<Reply>)
    requires InStep(files, num, log, read) && Smooth(log, writes, opens, left)
    requires end == if FailedAt(readScript, |log|) then ReadError else Finished
    ensures Explained(log, log, end, files, []) && Concat(files) + [] == read
    ensures Caused(log, log, end, [], readScript, writes, opens)
  {
    assert read + [] == read;
  }

  lemma OpenStops(files: seq<Bytes>, num: nat, log: seq<Happening>, read: Bytes,
                  seen: seq<Happening>, c: Bytes,
                  readScript: seq<Reply>, writes: seq<Reply>, opens: seq<bool>, left: seq<Reply>)
    requires InStep(files, num, log, read) && num == 3 && !Opens(opens, |files|)
    requires log < seen && seen[|log|] == Chunk(c) && Smooth(log, writes, opens, left)
    ensures Explained(seen, log, OpenError, files, c) && Concat(files) == read && !AllOpen(opens)
    ensures Caused(seen, log, OpenError, c, readScript, writes, opens)
  {
    hide Layout, Contents, Concat, WritesLeft, GoesThrough;
  }

  lemma WriteStops(files: seq<Bytes>, num: nat, log: seq<Happening>, read: Bytes,
                   seen: seq<Happening>, c: Bytes,
                   readScript: seq<Reply>, writes: seq<Reply>, opens: seq<bool>, left: seq<Reply>)
    requires InStep(files, num, log, read) && c != [] && !Take(left, c).ok && (num == 3 ==> Opens(opens, |files|))
    requires log < seen && seen[|log|] == Chunk(c) && Smooth(log, writes, opens, left)
    ensures var sent := Take(left, c).sent;
            && Explained(seen, log, WriteError, Append(files, sent, num == 3), c[|sent|..]) && Concat(files) == read
            && Caused(seen, log, WriteError, c[|sent|..], readScript, writes, opens)
  {
    hide Append, Contents, Layout, Concat, Take, GoesThrough, WritesLeft, Opens;
    var sent := Take(left, c).sent;
    assert |c| - |c[|sent|..]| == |sent| && c[..|sent|] == sent;
  }

  lemma OpenedFiles(files: seq<Bytes>, c: Bytes, rolled: bool, opens: seq<bool>)
    requires files != [] && forall k :: 0 < k < |files| && k < |opens| ==> opens[k]
    ensures Opens(opens, |files|) || !rolled ==>
              forall k :: 0 < k < |Append(files, c, rolled)| && k < |opens| ==> opens[k]
    ensures !Opens(opens, |files|) ==> |files| < |opens| && !opens[|files|]
  {
  }

  lemma NothingYetWritten(writes: seq<Reply>, opens: seq<bool>)
    ensures Smooth([], writes, opens, writes)
  {
  }

  lemma SmoothAfterChunk(files: seq<Bytes>, num: nat, log: seq<Happening>, read: Bytes, c: Bytes,
                         writes: seq<Reply>, opens: seq<bool>, left: seq<Reply>)
    requires InStep(files, num, log, read) && Smooth(log, writes, opens, left) && c != []
    requires Take(left, c).ok && (num == 3 ==> Opens(opens, |files|))
    ensures Smooth(log + [Chunk(c)], writes, opens, Take(left, c).script)
  {
    hide Layout, Contents, Concat, Take, WritesLeft, Opens;
    SmoothAfter(log, Chunk(c), writes, opens, left);
  }

  lemma SmoothAfterAgain(log: seq<Happening>, writes: seq<Reply>, opens: seq<bool>, left: seq<Reply>)
    requires Smooth(log, writes, opens, left)
    ensures Smooth(log + [ReadAgain], writes, opens, left)
  {
    SmoothAfter(log, ReadAgain, writes, opens, left);
  }

  /** The outer loop. */
  method CopyAll(src: Bytes, cap: nat, readReplies: seq<Reply>, writeReplies: seq<Reply>, opens: seq<bool>)
    returns (files: seq<Bytes>, end: Ending, used: nat, lost: Bytes, ghost log: seq<Happening>)
    requires cap > 0
    ensures end.Finished? || end.ReadError? || end.OpenError? || end.WriteError?
    ensures end.OpenError? ==> !AllOpen(opens)
    ensures end.ReadError? ==> !NeverFails(readReplies)
    ensures end.WriteError? ==> !NeverFails(writeReplies)
    ensures used <= |src| && Concat(files) + lost == src[..used]
    ensures end.Finished? ==> used == |src|
    ensures lost != [] <==> end.OpenError? || end.WriteError?
    ensures Explained(Seen(src, cap, readReplies), log, end, files, lost)
    ensures Caused(Seen(src, cap, readReplies), log, end, lost, readReplies, writeReplies, opens)
    // each file after the first was opened, and an open error means the next one was not
    ensures files != [] && forall k :: 0 < k < |files| && k < |opens| ==> opens[k]
    ensures end.OpenError? ==> |files| < |opens| && !opens[|files|]
  {
    hide *;
    var buffer := new bv8[cap];
    var readScript, writeScript, num := readReplies, writeReplies, 0;
    files, used, lost, log := [[]], 0, [], [];
    ghost var seen := Seen(src, cap, readReplies);
    NothingSeenYet(src, cap, readReplies);
    InStepAtFirst();
    NothingYetWritten(writeReplies, opens);
    while true
      invariant files != [] && used <= |src| && lost == []
      invariant UnderWay(src, cap, readReplies, log, used, readScript)
      invariant InStep(files, num, log, src[..used])
      invariant Smooth(log, writeReplies, opens, writeScript)
      invariant forall k :: 0 < k < |files| && k < |opens| ==> opens[k]
      invariant NeverFails(readReplies) ==> NeverFails(readScript)
      invariant NeverFails(writeReplies) ==> NeverFails(writeScript)
      decreases |readScript|, |src| - used
    {
      OneMore(src, cap, readReplies, log, used, readScript);
      RestShrinks(readScript, Least(|src| - used, cap));
      var got;
      got, readScript := ReadChunk(src, used, buffer, readScript);
      if got == Moved(0) || got.Error? {
        end := if got.Error? then ReadError else Finished;
        AllSeen(files, num, log, src[..used], end, readReplies, writeReplies, opens, writeScript);
        return;
      }
      if got.Moved? {
        ghost var c, read, was, wasNum := buffer[..got.n], src[..used], files, num;
        ghost var wasLeft := writeScript;
        used := used + got.n;
        assert src[..used] == read + c;
        InStepAfterChunk(files, num, log, read, c);
        var stop;
        files, num, stop, lost, writeScript := CopyChunk(files, num, buffer, got.n, writeScript, opens);
        if stop.Some? {
          end := stop.value;
          OpenedFiles(was, Take(wasLeft, c).sent, wasNum == 3, opens);
          if end.OpenError? {
            OpenStops(was, wasNum, log, read, seen, c, readReplies, writeReplies, opens, wasLeft);
          } else {
            WriteStops(was, wasNum, log, read, seen, c, readReplies, writeReplies, opens, wasLeft);
          }
          return;
        }
        OpenedFiles(was, c, wasNum == 3, opens);
        SmoothAfterChunk(was, wasNum, log, read, c, writeReplies, opens, wasLeft);
        log := log + [Chunk(c)];
      } else {
        InStepAfterAgain(files, num, log, src[..used]);
        SmoothAfterAgain(log, writeReplies, opens, writeScript);
        log := log + [ReadAgain];
      }
      num := num + 1;
    }
  }

  // ------------------------------------------------------------------ files that existed before

  /** Files are opened without truncation: what was there beyond the bytes written stays. */
  function Over(old_: Bytes, written: Bytes): Bytes {
    written + if |old_| > |written| then old_[|written|..] else []
  }

  /** A write at position `pos` of a file. */
  function WriteAt(file: Bytes, pos: nat, piece: Bytes): Bytes
    requires pos <= |file|
  {
    file[..pos] + piece + if |file| > pos + |piece| then file[pos + |piece|..] else []
  }

  /** Writing one piece after another from the start leaves exactly that. */
  lemma WriteOnward(old_: Bytes, written: Bytes, piece: Bytes)
    ensures WriteAt(Over(old_, written), |written|, piece) == Over(old_, written + piece)
  {
    var f := Over(old_, written);
    assert f[..|written|] == written;
    if |old_| > |written + piece| {
      assert f[|written| + |piece|..] == old_[|written| + |piece|..];
    }
  }

  function Padded(files: seq<Bytes>, m: nat): (r: seq<Bytes>)
    ensures |r| == if |files| < m then m else |files|
    ensures forall k {:trigger r[k]} :: 0 <= k < |r| ==> r[k] == if k < |files| then files[k] else []
    decreases m
  {
    if |files| >= m then files else Padded(files, m - 1) + [[]]
  }

  lemma {:induction false} PaddedConcat(files: seq<Bytes>, m: nat)
    ensures Concat(Padded(files, m)) == Concat(files)
  {
    if |files| < m {
      PaddedConcat(files, m - 1);
      assert Padded(files, m)[..m - 1] == Padded(files, m - 1);
      assert Concat(files) + [] == Concat(files);
    }
  }

  function Overlay(before: seq<Bytes>, written: seq<Bytes>): (r: seq<Bytes>)
    requires |before| == |written|
    ensures |r| == |written|
  {
    if written == [] then [] else
    var n := |written| - 1;
    Overlay(before[..n], written[..n]) + [Over(before[n], written[n])]
  }

  /** The numbered files after a run that wrote `written` where `before` was. */
  function OnDisk(before: seq<Bytes>, written: seq<Bytes>): seq<Bytes> {
    Overlay(Padded(before, |written|), Padded(written, |before|))
  }

  /** No file was longer before than what this run writes to it, and none is left over. */
  predicate NothingSticksOut(before: seq<Bytes>, written: seq<Bytes>) {
    forall k :: 0 <= k < |before| ==> |before[k]| <= if k < |written| then |written[k]| else 0
  }

  lemma {:induction false} OverlayLonger(before: seq<Bytes>, written: seq<Bytes>)
    requires |before| == |written|
    ensures |Concat(Overlay(before, written))| >= |Concat(written)|
    ensures |Concat(Overlay(before, written))| == |Concat(written)| ==>
              forall k :: 0 <= k < |written| ==> |before[k]| <= |written[k]|
    decreases |written|
  {
    if written != [] {
      var n := |written| - 1;
      OverlayLonger(before[..n], written[..n]);
      var d := Overlay(before, written);
      assert d[..n] == Overlay(before[..n], written[..n]);
      if |Concat(d)| == |Concat(written)| {
        forall k | 0 <= k < |written| ensures |before[k]| <= |written[k]| {
          if k < n {
            assert |before[..n][k]| <= |written[..n][k]|;
          }
        }
      }
    }
  }

  lemma {:induction false} OverlaySame(before: seq<Bytes>, written: seq<Bytes>)
    requires |before| == |written| && forall k :: 0 <= k < |written| ==> |before[k]| <= |written[k]|
    ensures Overlay(before, written) == written
    decreases |written|
  {
    if written != [] {
      var n := |written| - 1;
      forall k | 0 <= k < n ensures |before[..n][k]| <= |written[..n][k]| {
        assert |before[k]| <= |written[k]|;
      }
      OverlaySame(before[..n], written[..n]);
      assert written[n] + [] == written[n];
      assert written == written[..n] + [written[n]];
    }
  }

  lemma PaddedFits(before: seq<Bytes>, written: seq<Bytes>)
    ensures var b, w := Padded(before, |written|), Padded(written, |before|);
            NothingSticksOut(before, written) <==> forall k :: 0 <= k < |w| ==> |b[k]| <= |w[k]|
  {
    var b, w := Padded(before, |written|), Padded(written, |before|);
    if NothingSticksOut(before, written) {
      forall k | 0 <= k < |w| ensures |b[k]| <= |w[k]| {
        assert k < |before| ==> |before[k]| <= if k < |written| then |written[k]| else 0;
      }
    } else {
      var k :| 0 <= k < |before| && |before[k]| > if k < |written| then |written[k]| else 0;
      assert |b[k]| > |w[k]|;
    }
  }

  /** The files on disk concatenate to what was written exactly when nothing of an earlier run
    sticks out. */
  lemma DiskHoldsWhatWasWritten(before: seq<Bytes>, written: seq<Bytes>)
    ensures Concat(OnDisk(before, written)) == Concat(written) <==> NothingSticksOut(before, written)
  {
    hide Padded, Overlay, Concat, NothingSticksOut;
    var b, w := Padded(before, |written|), Padded(written, |before|);
    PaddedConcat(written, |before|);
    PaddedFits(before, written);
    if NothingSticksOut(before, written) {
      OverlaySame(b, w);
    } else {
      OverlayLonger(b, w);
    }
  }

  /** spilt_files. `used` is how much of the source was read, `lost` the part of the buffer that
    was read and not written, and `before` what the numbered files held before. */
  method SplitFile(source: Option<Bytes>, cap: nat, readReplies: seq<Reply>, writeReplies: seq<Reply>,
                   opens: seq<bool>, ghost before: seq<Bytes>)
    returns (files: seq<Bytes>, end: Ending, used: nat, lost: Bytes, ghost log: seq<Happening>)
    requires cap > 0
    // conservation
    ensures end.NoSource? <==> source.None?
    ensures end.NoSource? || end.NoFirstFile? ==> files == [] && used == 0 && lost == []
    ensures source.Some? ==> used <= |source.value| && Concat(files) + lost == source.value[..used]
    ensures source.Some? ==> Concat(files) <= source.value
    ensures end.Finished? ==> source.Some? && Concat(files) == source.value
    ensures lost != [] <==> end.OpenError? || end.WriteError?
    // it stops early only if the system fails it
    ensures end.NoFirstFile? || end.OpenError? ==> !AllOpen(opens)
    ensures end.ReadError? ==> !NeverFails(readReplies)
    ensures end.WriteError? ==> !NeverFails(writeReplies)
    // shape
    ensures source.Some? && !end.NoFirstFile? ==>
              Explained(Seen(source.value, cap, readReplies), log, end, files, lost)
    // exactly when and why it stops
    ensures end.NoFirstFile? <==> source.Some? && |opens| > 0 && !opens[0]
    ensures forall k :: 0 <= k < |files| && k < |opens| ==> opens[k]
    ensures end.OpenError? ==> |files| < |opens| && !opens[|files|]
    ensures source.Some? && !end.NoFirstFile? ==>
              Caused(Seen(source.value, cap, readReplies), log, end, lost, readReplies, writeReplies, opens)
    // files that existed before
    ensures end.Finished? ==> (Concat(OnDisk(before, files)) == source.value <==> NothingSticksOut(before, files))
  {
    hide Concat, OnDisk, NothingSticksOut, Seen, Explained, NeverFails, Caused;
    files, used, lost, log := [], 0, [], [];
    if source.None? {
      end := NoSource;
      return;
    }
    if !Opens(opens, 0) {
      end := NoFirstFile;
      NothingYet(source.value);
      return;
    }
    files, end, used, lost, log := CopyAll(source.value, cap, readReplies, writeReplies, opens);
    DiskHoldsWhatWasWritten(before, files);
    assert lost == [] ==> Concat(files) + lost == Concat(files);
  }

  lemma NothingYet(src: Bytes)
    ensures Concat([]) + [] == src[..0] && Concat([]) <= src
  {
  }
}
