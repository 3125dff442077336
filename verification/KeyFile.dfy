/** The key file of TAIR/tair_test/tair_test.cpp: a text file with one key per line, appended
  to by put rounds and read cyclically by get and delete rounds. */
module KeyFile {
  import opened Prelude

  /** fgets(key, 1024, r_fd) returns at most this many characters. */
  const LIMIT: nat := 1023

  /** How much fgets takes from `s` if it may take at most `max` characters: up to and including
    the first newline. */
  function LineLength(s: string, max: nat): (n: nat)
    ensures n <= |s| && n <= max && (s != "" && max > 0 ==> n > 0)
  {
    if s == "" || max == 0 then 0
    else if s[0] == '\n' then 1
    else 1 + LineLength(s[1..], max - 1)
  }

  /** The next line, with its newline; none at the end of the file. */
  function Fgets(file: string, pos: nat): (line: Option<string>)
    ensures line.Some? ==> line.value != "" && pos + |line.value| <= |file|
  {
    if pos >= |file| then None
    else Some(file[pos..pos + LineLength(file[pos..], LIMIT)])
  }

  lemma {:induction false} LineLengthMeans(s: string, max: nat)
    ensures var n := LineLength(s, max);
            && n <= |s| && n <= max && '\n' !in s[..if n > 0 then n - 1 else 0]
            && (n == |s| || n == max || (n > 0 && s[n - 1] == '\n'))
    decreases max
  {
    if s != "" && max > 0 && s[0] != '\n' {
      LineLengthMeans(s[1..], max - 1);
      var n := LineLength(s, max);
      assert n > 1 ==> s[..n - 1] == [s[0]] + s[1..][..n - 2];
    }
  }

  /** fgets in figures: at the end of the file nothing, else at most 1023 characters, ending with
    the first newline if there is one among them. */
  lemma FgetsMeans(file: string, pos: nat)
    ensures Fgets(file, pos) == None <==> pos >= |file|
    ensures pos < |file| ==>
              var line := Fgets(file, pos).value;
              var n := |line|;
              && 0 < n <= 1023 && pos + n <= |file| && line == file[pos..pos + n] && '\n' !in line[..n - 1]
              && (line[n - 1] == '\n' || n == 1023 || pos + n == |file|)
  {
    if pos < |file| {
      hide LineLength;
      LineLengthMeans(file[pos..], LIMIT);
      var n := LineLength(file[pos..], LIMIT);
      assert file[pos..][..n] == file[pos..pos + n] && n > 0;
      assert file[pos..][..n - 1] == file[pos..pos + n][..n - 1];
    }
  }

  // ------------------------------------------------------------------ files of whole lines

  predicate GoodKey(k: string) { '\n' !in k && |k| < LIMIT }

  predicate GoodKeys(ks: seq<string>) { forall i :: 0 <= i < |ks| ==> GoodKey(ks[i]) }

  /** The file that holds the keys, one per line. */
  function Content(ks: seq<string>): string {
    if ks == [] then "" else ks[0] + "\n" + Content(ks[1..])
  }

  /** Where line `p` starts. */
  function Offset(ks: seq<string>, p: nat): nat
    requires p <= |ks|
  {
    |Content(ks[..p])|
  }

  lemma {:induction false} ContentConcat(ks: seq<string>, ls: seq<string>)
    ensures Content(ks + ls) == Content(ks) + Content(ls)
    decreases |ks|
  {
    if ks == [] {
      assert ks + ls == ls;
    } else {
      assert (ks + ls)[1..] == ks[1..] + ls;
      ContentConcat(ks[1..], ls);
    }
  }

  lemma ContentSplit(ks: seq<string>, p: nat)
    requires p <= |ks|
    ensures Content(ks) == Content(ks[..p]) + Content(ks[p..])
  {
    assert ks == ks[..p] + ks[p..];
    ContentConcat(ks[..p], ks[p..]);
  }

  /** Line boundaries stay line boundaries when lines are appended. */
  lemma OffsetStable(ks: seq<string>, ls: seq<string>, p: nat)
    requires p <= |ks|
    ensures Offset(ks + ls, p) == Offset(ks, p)
  {
    assert (ks + ls)[..p] == ks[..p];
  }

  lemma OffsetNext(ks: seq<string>, p: nat)
    requires p < |ks|
    ensures Offset(ks, p + 1) == Offset(ks, p) + |ks[p]| + 1
  {
    assert ks[..p + 1] == ks[..p] + [ks[p]];
    ContentConcat(ks[..p], [ks[p]]);
    assert Content([ks[p]]) == ks[p] + "\n" + "";
  }

  lemma {:induction false} LineLengthIs(k: string, more: string, max: nat)
    requires '\n' !in k && |k| < max
    ensures LineLength(k + "\n" + more, max) == |k| + 1
  {
    var s := k + "\n" + more;
    if k != "" {
      assert s[1..] == k[1..] + "\n" + more;
      LineLengthIs(k[1..], more, max - 1);
    }
  }

  lemma FgetsLine(before: string, k: string, more: string)
    requires GoodKey(k)
    ensures Fgets(before + (k + "\n" + more), |before|) == Some(k + "\n")
  {
    var file, rest := before + (k + "\n" + more), k + "\n" + more;
    assert file[|before|..] == rest;
    LineLengthIs(k, more, LIMIT);
    assert file[|before|..|before| + |k| + 1] == rest[..|k| + 1] == k + "\n";
  }

  /** At a line boundary fgets returns exactly that line, or the end of the file. */
  lemma FgetsAtLine(ks: seq<string>, p: nat)
    requires GoodKeys(ks) && p <= |ks|
    ensures Fgets(Content(ks), Offset(ks, p)) == if p == |ks| then None else Some(ks[p] + "\n")
  {
    hide LineLength;
    ContentSplit(ks, p);
    if p < |ks| {
      FgetsLine(Content(ks[..p]), ks[p], Content(ks[p..][1..]));
    } else {
      assert ks[..p] == ks;
    }
  }

  /** Splitting on newlines: the pieces before each newline, and what is left after the last. */
  function Lines(s: string, piece: string): (seq<string>, string)
    decreases |s|
  {
    if s == "" then ([], piece)
    else if s[0] == '\n' then var (ls, rest) := Lines(s[1..], ""); ([piece] + ls, rest)
    else Lines(s[1..], piece + [s[0]])
  }

  lemma {:induction false} LinesOfKey(k: string, more: string, piece: string)
    requires '\n' !in k
    ensures Lines(k + "\n" + more, piece) == var (ls, rest) := Lines(more, ""); ([piece + k] + ls, rest)
    decreases |k|
  {
    var s := k + "\n" + more;
    if k == "" {
      assert s == "\n" + more && s[1..] == more && piece + k == piece;
    } else {
      assert s[1..] == k[1..] + "\n" + more;
      LinesOfKey(k[1..], more, piece + [k[0]]);
      assert piece + [k[0]] + k[1..] == piece + k;
    }
  }

  /** Round trip: splitting the file gives back exactly the keys written, with nothing over. */
  lemma {:induction false} KeysReadBack(ks: seq<string>)
    requires forall i :: 0 <= i < |ks| ==> '\n' !in ks[i]
    ensures Lines(Content(ks), "") == (ks, "")
    decreases |ks|
  {
    if ks != [] {
      KeysReadBack(ks[1..]);
      LinesOfKey(ks[0], Content(ks[1..]), "");
      assert "" + ks[0] == ks[0] && [ks[0]] + ks[1..] == ks;
    }
  }

  // ------------------------------------------------------------------ generated keys

  /** gen_str, with the random numbers given. */
  function Generated(rands: seq<nat>): (k: string)
    ensures |k| == |rands| && forall i :: 0 <= i < |k| ==> '!' <= k[i] <= '~'
  {
    seq(|rands|, i requires 0 <= i < |rands| => (rands[i] % 94 + 33) as char)
  }

  /** Generated characters are printable, so a generated key never breaks a line. */
  lemma GeneratedIsGood(rands: seq<nat>)
    requires |rands| < LIMIT
    ensures GoodKey(Generated(rands))
  {
  }

  // ------------------------------------------------------------------ the cyclic reader

  /** What reading `want` more keys yields from position `pos` after `wraps` wraps: the keys and
    the final position, or nothing once the end of the file was met a fifth time. */
  function Read(file: string, pos: nat, want: nat, wraps: nat): Option<(seq<string>, nat)>
    decreases 5 - wraps, want
  {
    if want == 0 then Some(([], pos)) else
    match Fgets(file, pos)
    case None => if wraps + 1 > 4 then None else Read(file, 0, want, wraps + 1)
    case Some(line) =>
      match Read(file, pos + |line|, want - 1, wraps)
      case None => None
      case Some((ks, end)) => Some(([line[..|line| - 1]] + ks, end))
  }

  /** The line after `i` more, going round. */
  function Around(p: nat, i: nat, n: nat): nat
    requires n > 0
  {
    (p + i) % n
  }

  lemma AroundWrap(i: nat, n: nat)
    requires n > 0
    ensures Around(n, i, n) == Around(0, i, n)
  {
    var q, r := i / n, i % n;
    assert i == n * q + r;
    assert n + i == n * (q + 1) + r;
    DivisionIsUnique(n + i, n, q + 1, r);
  }

  lemma DivisionIsUnique(a: nat, n: nat, q: nat, r: nat)
    requires n > 0 && r < n && a == n * q + r
    ensures a % n == r
  {
    NoMultipleBetween(n, q, a / n, r, a % n);
  }

  lemma NoMultipleBetween(n: nat, q: nat, q': nat, r: nat, r': nat)
    requires r < n && r' < n && n * q + r == n * q' + r'
    ensures r == r'
  {
    if q > q' {
      Grows(n, q', q);
    } else if q < q' {
      Grows(n, q, q');
    }
  }

  lemma Grows(n: nat, q: nat, q': nat)
    requires q < q'
    ensures n * q' >= n * q + n
  {
    assert n * q' == n * (q + 1) + n * (q' - q - 1);
  }

  /** The line boundary where reading `want` keys from line `p` stops. */
  function StopLine(p: nat, want: nat, n: nat): (q: nat)
    requires p <= n && (want > 0 ==> n > 0)
    ensures q <= n
  {
    if want == 0 then p else Around(p, want - 1, n) + 1
  }

  /** From line p of L lines, after `wraps` wraps, exactly (L - p) + (4 - wraps) * L more keys
    can be read; they are the following lines in cyclic order, and reading stops at a line
    boundary. */
  lemma {:induction false} CyclicRead(ks: seq<string>, p: nat, want: nat, wraps: nat)
    requires GoodKeys(ks) && p <= |ks| && wraps <= 4
    ensures var r, n := Read(Content(ks), Offset(ks, p), want, wraps), |ks|;
            && (r.Some? <==> want <= (n - p) + (4 - wraps) * n)
            && (r.Some? ==>
                  && |r.value.0| == want && (want > 0 ==> n > 0)
                  && r.value.1 == Offset(ks, StopLine(p, want, n))
                  && forall i :: 0 <= i < want ==> r.value.0[i] == ks[Around(p, i, n)])
    decreases 5 - wraps, want
  {
    hide Fgets, Content, Around;
    if want > 0 {
      FgetsAtLine(ks, p);
      if p == |ks| {
        if wraps < 4 {
          WrapStep(ks, want, wraps);
        }
      } else {
        CyclicRead(ks, p + 1, want - 1, wraps);
        LineStep(ks, p, want, wraps);
      }
    }
  }

  lemma {:induction false} WrapStep(ks: seq<string>, want: nat, wraps: nat)
    requires GoodKeys(ks) && want > 0 && wraps < 4
    ensures var r, n := Read(Content(ks), 0, want, wraps + 1), |ks|;
            && (r.Some? <==> want <= (4 - wraps) * n)
            && (r.Some? ==>
                  && |r.value.0| == want && n > 0
                  && r.value.1 == Offset(ks, StopLine(n, want, n))
                  && forall i :: 0 <= i < want ==> r.value.0[i] == ks[Around(n, i, n)])
    decreases 5 - wraps, 0
  {
    var n := |ks|;
    CyclicRead(ks, 0, want, wraps + 1);
    assert Offset(ks, 0) == 0;
    assert n + (3 - wraps) * n == (4 - wraps) * n;
    if n > 0 {
      AroundWrap(want - 1, n);
      forall i | 0 <= i < want ensures Around(n, i, n) == Around(0, i, n) {
        AroundWrap(i, n);
      }
    }
  }

  lemma LineStep(ks: seq<string>, p: nat, want: nat, wraps: nat)
    requires GoodKeys(ks) && p < |ks| && want > 0 && wraps <= 4
    ensures Offset(ks, p) + |ks[p] + "\n"| == Offset(ks, p + 1)
    ensures (ks[p] + "\n")[..|ks[p]|] == ks[p]
    ensures Around(p, 0, |ks|) == p
    ensures forall i :: 0 < i < want ==> Around(p + 1, i - 1, |ks|) == Around(p, i, |ks|)
    ensures StopLine(p + 1, want - 1, |ks|) == StopLine(p, want, |ks|)
  {
    OffsetNext(ks, p);
  }
}
