/** The main thread's rounds in TAIR/tair_test/tair_test.cpp: do_work with its key file, its two
  read cursors and its operation counter. A posted job is recorded with its keys and values;
  what the workers do with it is in Harness. The random numbers are arguments. */
module TairTest {
  import opened Prelude
  import Harness
  import opened KeyFile
  import opened OpJob

  datatype Posted = Posted(flag: int, keys: seq<string>, vals: seq<string>)

  function Size(j: Posted): nat { |j.keys| }

  /** Random number i, j of a round. */
  type Random = (nat, nat) -> nat

  function Draw(rnd: Random, i: nat, n: nat): (r: seq<nat>)
    ensures |r| == n
  {
    seq(n, j requires 0 <= j < n => rnd(i, j))
  }

  /** The first `nums` strings of length `len` generated from `rnd`. */
  function Strings(rnd: Random, len: nat, nums: nat): (ss: seq<string>)
    ensures |ss| == nums
  {
    if nums == 0 then [] else Strings(rnd, len, nums - 1) + [Generated(Draw(rnd, nums - 1, len))]
  }

  lemma StringsGrow(rnd: Random, len: nat, n: nat)
    ensures Strings(rnd, len, n + 1) == Strings(rnd, len, n) + [Generated(Draw(rnd, n, len))]
  {
  }

  lemma NoStrings(rnd: Random, len: nat)
    ensures Strings(rnd, len, 0) == []
  {
  }

  /** Character j of string i comes from random number i, j. */
  predicate Drawn(ss: seq<string>, rnd: Random, len: nat) {
    forall i :: 0 <= i < |ss| ==> |ss[i]| == len && forall j :: 0 <= j < len ==> ss[i][j] as int == 33 + rnd(i, j) % 94
  }

  lemma {:induction false} StringsAreDrawn(rnd: Random, len: nat, nums: nat)
    ensures Drawn(Strings(rnd, len, nums), rnd, len)
  {
    if nums > 0 {
      StringsAreDrawn(rnd, len, nums - 1);
    }
  }

  lemma {:induction false} StringsAreGood(rnd: Random, len: nat, nums: nat)
    requires len < LIMIT
    ensures GoodKeys(Strings(rnd, len, nums))
  {
    if nums > 0 {
      StringsAreGood(rnd, len, nums - 1);
      GeneratedIsGood(Draw(rnd, nums - 1, len));
    }
  }

  method GenStr(rands: seq<nat>) returns (str: string)
    ensures str == Generated(rands)
  {
    str := "";
    for i := 0 to |rands|
      invariant str == Generated(rands)[..i]
    {
      str := str + [(rands[i] % 94 + 33) as char];
    }
  }

  /** A round of do_work: put, get or delete `nums` keys. */
  datatype Round =
    | Put(nums: nat, keyRand: nat, valRand: nat, keyChars: Random, valChars: Random)
    | Get(nums: nat)
    | Delete(nums: nat)

  // ------------------------------------------------------------------ what the rounds come to

  /** What the rounds work on: the lines of the key file, the lines the two cursors stand at, and
    the jobs posted so far. */
  datatype Progress = Progress(keys: seq<string>, readLine: nat, delLine: nat, posted: seq<Posted>)

  predicate Sound(d: Progress) { d.readLine <= |d.keys| && d.delLine <= |d.keys| }

  /** A put always finds its keys; a reading round does if five passes from its cursor hold them. */
  predicate Fits(d: Progress, r: Round)
    requires Sound(d)
  {
    var p := if r.Delete? then d.delLine else d.readLine;
    r.Put? || r.nums <= (|d.keys| - p) + 4 * |d.keys|
  }

  /** `nums` lines from line `p` on, going round. */
  function LinesFrom(keys: seq<string>, p: nat, nums: nat): (ks: seq<string>)
    requires nums > 0 ==> keys != []
    ensures |ks| == nums
  {
    seq(nums, i requires 0 <= i < nums => keys[Around(p, i, |keys|)])
  }

  /** A put appends its keys and posts them with their values. A get or delete that fits posts the
    lines from its cursor on and moves the cursor behind them; otherwise nothing changes. */
  function Perform(d: Progress, r: Round): (d': Progress)
    requires Sound(d)
    ensures Sound(d') && d.keys <= d'.keys && d.posted <= d'.posted
  {
    if !Fits(d, r) then d else
    var n := |d.keys|;
    match r
    case Put(nums, k, v, kc, vc) =>
      var new_ := Strings(kc, k % 10 + 5, nums);
      d.(keys := d.keys + new_, posted := d.posted + [Posted(0, new_, Strings(vc, v % 20 + 5, nums))])
    case Get(nums) =>
      d.(readLine := StopLine(d.readLine, nums, n),
         posted := d.posted + [Posted(1, LinesFrom(d.keys, d.readLine, nums), [])])
    case Delete(nums) =>
      d.(delLine := StopLine(d.delLine, nums, n),
         posted := d.posted + [Posted(2, LinesFrom(d.keys, d.delLine, nums), [])])
  }

  function PerformAll(d: Progress, rounds: seq<Round>): (d': Progress)
    requires Sound(d)
    ensures Sound(d') && d.keys <= d'.keys && d.posted <= d'.posted
  {
    if rounds == [] then d
    else Perform(PerformAll(d, rounds[..|rounds| - 1]), rounds[|rounds| - 1])
  }

  /** One round after the other. */
  lemma {:induction false} PerformInOrder(d: Progress, first: seq<Round>, more: seq<Round>)
    requires Sound(d)
    ensures PerformAll(d, first + more) == PerformAll(PerformAll(d, first), more)
    decreases |more|
  {
    hide Perform;
    if more == [] {
      assert first + more == first;
    } else {
      var n := |more| - 1;
      var all := first + more;
      assert all[..|all| - 1] == first + more[..n] && all[|all| - 1] == more[n];
      PerformInOrder(d, first, more[..n]);
    }
  }

  lemma PerformOne(d: Progress, r: Round)
    requires Sound(d)
    ensures PerformAll(d, [r]) == Perform(d, r) && ScriptOf(d, [r]) == [Outcome(d, r)]
  {
    assert [r][..0] == [];
  }

  lemma {:induction false} ScriptInOrder(d: Progress, first: seq<Round>, more: seq<Round>)
    requires Sound(d)
    ensures ScriptOf(d, first + more) == ScriptOf(d, first) + ScriptOf(PerformAll(d, first), more)
    decreases |more|
  {
    hide PerformAll, Outcome;
    if more == [] {
      assert first + more == first;
    } else {
      var n := |more| - 1;
      var all := first + more;
      assert all[..|all| - 1] == first + more[..n] && all[|all| - 1] == more[n];
      ScriptInOrder(d, first, more[..n]);
      PerformInOrder(d, first, more[..n]);
    }
  }

  /** What a round is for the harness: how many keys it wants, and whether it gives up. */
  function Outcome(d: Progress, r: Round): Harness.Round
    requires Sound(d)
  {
    Harness.Round(r.nums, !Fits(d, r))
  }

  function ScriptOf(d: Progress, rounds: seq<Round>): (script: seq<Harness.Round>)
    requires Sound(d)
    ensures |script| == |rounds|
  {
    if rounds == [] then [] else
    var n := |rounds| - 1;
    ScriptOf(d, rounds[..n]) + [Outcome(PerformAll(d, rounds[..n]), rounds[n])]
  }

  function Sizes(js: seq<Posted>): (r: seq<nat>)
    ensures |r| == |js| && forall i :: 0 <= i < |js| ==> r[i] == |js[i].keys|
  {
    seq(|js|, i requires 0 <= i < |js| => Size(js[i]))
  }

  /** The sizes of the rounds that did not give up. */
  function KeptSizes(rs: seq<Harness.Round>): seq<nat> {
    if rs == [] then [] else
    var n := |rs| - 1;
    KeptSizes(rs[..n]) + if rs[n].givesUp then [] else [rs[n].nums]
  }

  /** A round posts one job of the size it wants, or gives up and posts none. */
  lemma PostsOne(d: Progress, r: Round)
    requires Sound(d)
    ensures var d', o := Perform(d, r), Outcome(d, r);
            && Sizes(d'.posted) == Sizes(d.posted) + (if o.givesUp then [] else [o.nums])
            && Sum(d'.posted, Size) == Sum(d.posted, Size) + Harness.Kept(o)
  {
    var d' := Perform(d, r);
    if Fits(d, r) {
      var j := d'.posted[|d.posted|];
      assert d'.posted == d.posted + [j] && Size(j) == r.nums;
      SumSnoc(d.posted, j, Size);
      assert Sizes(d.posted + [j]) == Sizes(d.posted) + [Size(j)];
    } else {
      assert Sizes(d.posted) + [] == Sizes(d.posted);
    }
  }

  /** The jobs posted over all rounds are those of the rounds that do not give up, in order. */
  lemma {:induction false} PostsTheScript(d: Progress, rounds: seq<Round>)
    requires Sound(d)
    ensures var d', script := PerformAll(d, rounds), ScriptOf(d, rounds);
            && Sizes(d'.posted) == Sizes(d.posted) + KeptSizes(script)
            && Sum(d'.posted, Size) == Sum(d.posted, Size) + Sum(script, Harness.Kept)
    decreases |rounds|
  {
    hide Perform, Outcome, Sizes;
    if rounds == [] {
      assert Sizes(d.posted) + [] == Sizes(d.posted);
    } else {
      var n := |rounds| - 1;
      var front, o := ScriptOf(d, rounds[..n]), Outcome(PerformAll(d, rounds[..n]), rounds[n]);
      PostsTheScript(d, rounds[..n]);
      PostsOne(PerformAll(d, rounds[..n]), rounds[n]);
      SumSnoc(front, o, Harness.Kept);
      KeptGrows(front, o, Sizes(d.posted));
    }
  }

  lemma KeptGrows(rs: seq<Harness.Round>, r: Harness.Round, before: seq<nat>)
    ensures before + KeptSizes(rs + [r]) == before + KeptSizes(rs) + if r.givesUp then [] else [r.nums]
  {
    assert (rs + [r])[..|rs|] == rs;
  }

  // ------------------------------------------------------------------ the program

  class TairTest {
    var file: string
    var readPos: nat
    var delPos: nat
    var totalOp: int
    var posted: seq<Posted>
    // the lines of the file, and the lines the cursors stand at
    ghost var keys: seq<string>
    ghost var readLine: nat
    ghost var delLine: nat

    /** The file consists of whole lines, both cursors are line boundaries of it, and total_op
      counts the keys of the posted jobs. */
    ghost predicate Valid()
      reads this
    {
      && GoodKeys(keys) && file == Content(keys)
      && readLine <= |keys| && readPos == Offset(keys, readLine)
      && delLine <= |keys| && delPos == Offset(keys, delLine)
      && totalOp == Sum(posted, Size)
    }

    ghost function Where(): Progress
      reads this
    {
      Progress(keys, readLine, delLine, posted)
    }

    constructor (ghost keys: seq<string>, file: string)
      requires GoodKeys(keys) && file == Content(keys)
      ensures Valid() && this.keys == keys && readLine == delLine == 0 && posted == [] && totalOp == 0
    {
      this.file := file;
      this.keys := keys;
      readPos, delPos, readLine, delLine := 0, 0, 0, 0;
      totalOp := 0;
      posted := [];
    }

    /** A put round appends its keys to the file and posts them with their values; the cursors
      stay where they are, and stay line boundaries. */
    method PutRound(nums: nat, keyRand: nat, valRand: nat, keyChars: Random, valChars: Random)
      requires Valid()
      modifies this
      ensures Valid()
      ensures var new_ := Strings(keyChars, keyRand % 10 + 5, nums);
              && keys == old(keys) + new_ && file == old(file) + Content(new_)
              && posted == old(posted) + [Posted(0, new_, Strings(valChars, valRand % 20 + 5, nums))]
      ensures var j := posted[|old(posted)|];
              var keyLen, valLen := keyRand % 10 + 5, valRand % 20 + 5;
              && |j.keys| == |j.vals| == nums && Appended(old(file), file, j.keys, keyLen)
              && (forall i :: 0 <= i < nums ==> |j.keys[i]| == keyLen && |j.vals[i]| == valLen)
              && (forall i, k :: 0 <= i < nums && 0 <= k < keyLen ==> j.keys[i][k] as int == 33 + keyChars(i, k) % 94)
              && (forall i, k :: 0 <= i < nums && 0 <= k < valLen ==> j.vals[i][k] as int == 33 + valChars(i, k) % 94)
      ensures totalOp == old(totalOp) + nums
      ensures readPos == old(readPos) && delPos == old(delPos) && readLine == old(readLine) && delLine == old(delLine)
    {
      hide Content, Offset, Strings, Appended;
      totalOp := totalOp + nums;
      var job;
      file, job := WriteKeys(file, nums, keyRand % 10 + 5, valRand % 20 + 5, keyChars, valChars);
      ghost var new_ := Strings(keyChars, keyRand % 10 + 5, nums);
      StringsAreGood(keyChars, keyRand % 10 + 5, nums);
      ContentConcat(keys, new_);
      OffsetStable(keys, new_, readLine);
      OffsetStable(keys, new_, delLine);
      keys := keys + new_;
      SumSnoc(posted, job, Size);
      posted := posted + [job];
    }

    /** A get or delete round posts a job if and only if the keys it wants fit in the rest of
      the file and four more passes; the job holds the lines from the cursor on, going round,
      and the cursor moves behind the last of them. Otherwise nothing changes. */
    method ReadRound(flag: int, nums: nat)
      requires Valid() && (flag == 1 || flag == 2)
      modifies this
      ensures Valid() && keys == old(keys) && file == old(file)
      ensures var p, n := if flag == 2 then old(delLine) else old(readLine), |keys|;
              if nums <= (n - p) + 4 * n then
                && totalOp == old(totalOp) + nums
                && |posted| == |old(posted)| + 1 && posted[..|old(posted)|] == old(posted)
                && var j := posted[|old(posted)|];
                && j.flag == flag && j.vals == [] && InTurn(j.keys, keys, p, nums) && (nums > 0 ==> n > 0)
                && (var stop := if nums == 0 then p else (p + nums - 1) % n + 1;
                    if flag == 2 then delLine == stop && readLine == old(readLine)
                    else readLine == stop && delLine == old(delLine))
              else
                && totalOp == old(totalOp) && posted == old(posted)
                && readPos == old(readPos) && delPos == old(delPos)
                && readLine == old(readLine) && delLine == old(delLine)
    {
      hide Content, Offset, Read, Around, StopLine, InTurn;
      totalOp := totalOp + nums;
      var curPos := if flag == 2 then delPos else readPos;
      ghost var p := if flag == 2 then delLine else readLine;
      CyclicRead(keys, p, nums, 0);
      var job, pos := FillJob(file, curPos, nums, flag);
      if job == None {
        totalOp := totalOp - nums;
        return;
      }
      SumSnoc(posted, job.value, Size);
      InCycle(job.value.keys, keys, p, nums);
      StopLineIs(p, nums, |keys|);
      posted := posted + [job.value];
      if flag == 1 {
        readPos := pos;
        readLine := StopLine(p, nums, |keys|);
      } else {
        delPos := pos;
        delLine := StopLine(p, nums, |keys|);
      }
    }

    /** Any round. */
    method DoRound(r: Round)
      requires Valid()
      modifies this
      ensures Valid() && Where() == Perform(old(Where()), r)
    {
      hide Content, Offset, GoodKeys, Strings, StopLine, Appended, InTurn;
      match r
      case Put(nums, k, v, kc, vc) =>
        PutRound(nums, k, v, kc, vc);
      case Get(nums) =>
        ReadRound(1, nums);
        if Fits(old(Where()), r) {
          StopLineIs(old(readLine), nums, |keys|);
          LastJob(posted, old(Where()), 1, old(readLine), nums);
        }
      case Delete(nums) =>
        ReadRound(2, nums);
        if Fits(old(Where()), r) {
          StopLineIs(old(delLine), nums, |keys|);
          LastJob(posted, old(Where()), 2, old(delLine), nums);
        }
    }

    /** do_work over any number of rounds: whatever puts come in between, both cursors are line
      boundaries of the current file and total_op is the number of keys posted. */
    method DoWork(rounds: seq<Round>)
      requires Valid()
      modifies this
      ensures Valid() && Where() == PerformAll(old(Where()), rounds)
      ensures totalOp == old(totalOp) + Sum(ScriptOf(old(Where()), rounds), Harness.Kept)
    {
      hide Perform;
      for i := 0 to |rounds|
        invariant Valid() && Where() == PerformAll(old(Where()), rounds[..i])
      {
        assert rounds[..i + 1][..i] == rounds[..i];
        DoRound(rounds[i]);
      }
      assert rounds[..|rounds|] == rounds;
      PostsTheScript(old(Where()), rounds);
    }
  }

  /** The keys are `nums` lines from line `p` on, going round. */
  predicate InTurn(ks: seq<string>, keys: seq<string>, p: nat, nums: nat) {
    |ks| == nums && (nums > 0 ==> keys != []) && forall i :: 0 <= i < nums ==> ks[i] == keys[(p + i) % |keys|]
  }

  lemma InCycle(ks: seq<string>, keys: seq<string>, p: nat, nums: nat)
    requires |ks| == nums && (nums > 0 ==> keys != [])
    requires forall i :: 0 <= i < nums ==> ks[i] == keys[Around(p, i, |keys|)]
    ensures InTurn(ks, keys, p, nums)
  {
  }

  lemma StopLineIs(p: nat, nums: nat, n: nat)
    requires p <= n && (nums > 0 ==> n > 0)
    ensures StopLine(p, nums, n) == if nums == 0 then p else (p + nums - 1) % n + 1
  {
  }

  /** A job whose keys are the lines from `p` on is the one a reading round posts. */
  lemma LastJob(posted: seq<Posted>, d: Progress, flag: int, p: nat, nums: nat)
    requires nums > 0 ==> d.keys != []
    requires |posted| == |d.posted| + 1 && posted[..|d.posted|] == d.posted
    requires var j := posted[|d.posted|];
             && j.flag == flag && j.vals == [] && InTurn(j.keys, d.keys, p, nums)
    ensures posted == d.posted + [Posted(flag, LinesFrom(d.keys, p, nums), [])]
  {
    assert posted[|d.posted|].keys == LinesFrom(d.keys, p, nums);
    assert posted == posted[..|d.posted|] + [posted[|d.posted|]];
  }

  /** The loop of a put round: each key is generated, written with a newline and added. */
  method WriteKeys(file: string, nums: nat, keyLen: nat, valLen: nat, keyChars: Random, valChars: Random)
    returns (file': string, out: Posted)
    requires keyLen > 0 && valLen > 0
    ensures file' == file + Content(Strings(keyChars, keyLen, nums))
    ensures out == Posted(0, Strings(keyChars, keyLen, nums), Strings(valChars, valLen, nums))
    // character by character
    ensures |out.keys| == |out.vals| == nums
    ensures forall i :: 0 <= i < nums ==> |out.keys[i]| == keyLen && |out.vals[i]| == valLen
    ensures forall i, j :: 0 <= i < nums && 0 <= j < keyLen ==> out.keys[i][j] as int == 33 + keyChars(i, j) % 94
    ensures forall i, j :: 0 <= i < nums && 0 <= j < valLen ==> out.vals[i][j] as int == 33 + valChars(i, j) % 94
    ensures Appended(file, file', out.keys, keyLen)
  {
    hide Content, Generated, Strings, Drawn;
    var job := new OpJob(nums, 0);
    file' := file;
    NothingWritten(file);
    NoStrings(keyChars, keyLen);
    NoStrings(valChars, valLen);
    for i := 0 to nums
      invariant job.Valid() && job.flag == 0 && job.keys.Length == nums
      invariant fresh(job) && fresh(job.keys) && fresh(job.vals)
      invariant job.Keys() == Strings(keyChars, keyLen, i) && job.Vals() == Strings(valChars, valLen, i)
      invariant file' == file + Content(Strings(keyChars, keyLen, i))
    {
      var key := GenStr(Draw(keyChars, i, keyLen));
      var val := GenStr(Draw(valChars, i, valLen));
      StringsGrow(keyChars, keyLen, i);
      StringsGrow(valChars, valLen, i);
      AppendedLine(file, Strings(keyChars, keyLen, i), key);
      file' := file' + key;
      file' := file' + "\n";
      job.Add(key, keyLen, val, valLen);
      assert key[..keyLen] == key && val[..valLen] == val;
    }
    out := Posted(0, job.Keys(), job.Vals());
    StringsAreDrawn(keyChars, keyLen, nums);
    StringsAreDrawn(valChars, valLen, nums);
    DrawnMeans(out.keys, keyChars, keyLen);
    DrawnMeans(out.vals, valChars, valLen);
    ContentIsAppended(file, out.keys, keyLen);
  }

  predicate LineAt(file: string, at: int, line: string) {
    0 <= at && at + |line| <= |file| && file[at..at + |line|] == line
  }

  /** The file grows by the keys, each of length `len` and followed by a newline. */
  predicate Appended(file: string, file': string, ks: seq<string>, len: nat) {
    && |file'| == |file| + |ks| * (len + 1) && file'[..|file|] == file
    && forall i {:trigger ks[i]} :: 0 <= i < |ks| ==> LineAt(file', |file| + i * (len + 1), ks[i] + "\n")
  }

  lemma DrawnMeans(ss: seq<string>, rnd: Random, len: nat)
    requires Drawn(ss, rnd, len)
    ensures forall i :: 0 <= i < |ss| ==> |ss[i]| == len
    ensures forall i, j :: 0 <= i < |ss| && 0 <= j < len ==> ss[i][j] as int == 33 + rnd(i, j) % 94
  {
  }

  lemma {:induction false} ContentLength(ks: seq<string>, len: nat)
    requires forall i :: 0 <= i < |ks| ==> |ks[i]| == len
    ensures |Content(ks)| == |ks| * (len + 1)
  {
    if ks != [] {
      ContentLength(ks[1..], len);
      assert |ks| * (len + 1) == (len + 1) + |ks[1..]| * (len + 1);
    }
  }

  lemma ContentAt(ks: seq<string>, len: nat, i: nat)
    requires i < |ks| && forall k :: 0 <= k < |ks| ==> |ks[k]| == len
    ensures LineAt(Content(ks), i * (len + 1), ks[i] + "\n")
  {
    hide Content;
    var front, back := ks[..i], ks[i + 1..];
    assert ks == front + ([ks[i]] + back);
    ContentConcat(front, [ks[i]] + back);
    ContentConcat([ks[i]], back);
    ContentOfOne(ks[i]);
    ContentLength(front, len);
    Between(Content(front), ks[i] + "\n", Content(back));
  }

  lemma Between(a: string, b: string, c: string)
    ensures LineAt(a + (b + c), |a|, b)
  {
  }

  lemma ContentOfOne(k: string)
    ensures Content([k]) == k + "\n"
  {
    assert Content([k]) == k + "\n" + "";
  }

  lemma ContentIsAppended(file: string, ks: seq<string>, len: nat)
    requires forall i :: 0 <= i < |ks| ==> |ks[i]| == len
    ensures Appended(file, file + Content(ks), ks, len)
  {
    hide Content, LineAt;
    ContentLength(ks, len);
    forall i {:trigger ks[i]} | 0 <= i < |ks|
      ensures LineAt(file + Content(ks), |file| + i * (len + 1), ks[i] + "\n")
    {
      ContentAt(ks, len, i);
      Shifted(file, Content(ks), i * (len + 1), ks[i] + "\n");
    }
  }

  lemma Shifted(file: string, c: string, at: int, line: string)
    requires LineAt(c, at, line)
    ensures LineAt(file + c, |file| + at, line)
  {
    assert (file + c)[|file| + at..|file| + at + |line|] == c[at..at + |line|];
  }

  lemma NothingWritten(file: string)
    ensures file + Content([]) == file
  {
  }

  lemma AppendedLine(file: string, ks: seq<string>, k: string)
    ensures file + Content(ks) + k + "\n" == file + Content(ks + [k])
  {
    ContentConcat(ks, [k]);
    assert Content([k]) == k + "\n" + "";
  }

  /** A job read so far, followed by the rest of a reading. */
  function Joined(ks: seq<string>, r: Option<(seq<string>, nat)>): Option<(seq<string>, nat)> {
    match r
    case None => None
    case Some((more, end)) => Some((ks + more, end))
  }

  /** Keys without the terminator that the reader puts in place of the newline. */
  function Bare(ks: seq<string>): (r: seq<string>)
    ensures |r| == |ks|
  {
    seq(|ks|, i requires 0 <= i < |ks| => if ks[i] == "" then "" else ks[i][..|ks[i]| - 1])
  }

  lemma BareGrows(ks: seq<string>, line: string)
    requires line != ""
    ensures var n := |line| - 1; Bare(ks + [line[n := '\0'][..|line|]]) == Bare(ks) + [line[..n]]
  {
    var n := |line| - 1;
    assert line[n := '\0'][..|line|][..n] == line[..n];
  }

  /** The reading loop of do_work: the end of the file costs no key, because the loop counter is
    stepped back before it is stepped on. */
  method FillJob(file: string, curPos: nat, nums: nat, flag: int) returns (out: Option<Posted>, pos: nat)
    requires flag != 0
    ensures match Read(file, curPos, nums, 0)
            case None => out == None
            case Some((ks, end)) => out == Some(Posted(flag, ks, [])) && pos == end
  {
    hide Read, Fgets, Joined, Bare;
    var job := new OpJob(nums, flag);
    pos := curPos;
    var reopened := 0;
    var i: int := 0;
    JoinedNothing(Read(file, pos, nums, 0));
    assert Bare(job.Keys()) == [];
    while i < nums
      invariant 0 <= i <= nums && reopened <= 4
      invariant job.Valid() && job.flag == flag && job.keys.Length == nums && fresh(job) && fresh(job.keys)
      invariant |job.Keys()| == i
      invariant Joined(Bare(job.Keys()), Read(file, pos, nums - i, reopened)) == Read(file, curPos, nums, 0)
      decreases 5 - reopened, nums - i
    {
      ReadGoesOn(file, pos, nums - i, reopened);
      var line := Fgets(file, pos);
      if line == None {
        reopened := reopened + 1;
        if reopened > 4 {
          JoinedFailure(Bare(job.Keys()));
          return None, pos;
        }
        pos := 0;
        i := i - 1;
      } else {
        var keySize := |line.value|;
        var key := line.value[keySize - 1 := '\0'];
        ghost var had := job.Keys();
        BareGrows(had, line.value);
        job.Add(key, keySize, "", 0);
        JoinedStep(Bare(had), line.value[..keySize - 1], Read(file, pos + keySize, nums - i - 1, reopened));
        pos := pos + keySize;
      }
      i := i + 1;
    }
    JoinedAll(Bare(job.Keys()), file, pos, reopened);
    out := Some(Posted(flag, Bare(job.Keys()), job.Vals()));
  }

  lemma ReadGoesOn(file: string, pos: nat, want: nat, wraps: nat)
    requires want > 0
    ensures match Fgets(file, pos)
            case None => Read(file, pos, want, wraps) == if wraps + 1 > 4 then None else Read(file, 0, want, wraps + 1)
            case Some(line) =>
              && line != ""
              && Read(file, pos, want, wraps) ==
                   match Read(file, pos + |line|, want - 1, wraps)
                   case None => None
                   case Some((ks, end)) => Some(([line[..|line| - 1]] + ks, end))
  {
  }

  lemma JoinedFailure(ks: seq<string>)
    ensures Joined(ks, None) == None
  {
  }

  lemma JoinedAll(ks: seq<string>, file: string, pos: nat, wraps: nat)
    ensures Joined(ks, Read(file, pos, 0, wraps)) == Some((ks, pos))
  {
    assert ks + [] == ks;
  }

  lemma JoinedNothing(r: Option<(seq<string>, nat)>)
    ensures Joined([], r) == r
  {
    if r.Some? {
      assert [] + r.value.0 == r.value.0;
    }
  }

  lemma JoinedStep(ks: seq<string>, k: string, r: Option<(seq<string>, nat)>)
    ensures Joined(ks + [k], r) ==
            Joined(ks, match r case None => None case Some((more, end)) => Some(([k] + more, end)))
  {
    if r.Some? {
      assert ks + [k] + r.value.0 == ks + ([k] + r.value.0);
    }
  }
}
