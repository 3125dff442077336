/** The index lists of TAIR/tair.sh: start_or_stop_all prints one, get_index reads it back.

  The text tools are functions on strings without newlines. `egrep -o` reports, from left to
  right, the longest match at the leftmost position where there is one, and goes on after it
  (POSIX.1-2017 Base Definitions, section 9.1). Numbers are unbounded. */
module IndexList {
  import opened Prelude

  // ------------------------------------------------------------------ the text tools

  /** The length of the longest match at the front of `s`, at most `n`; 0 if there is none. */
  function Longest(s: string, n: nat, re: string -> bool): (k: nat)
    requires n <= |s|
    ensures k <= n && (k > 0 ==> re(s[..k]))
    ensures forall j {:trigger s[..j]} :: k < j <= n ==> !re(s[..j])
  {
    if n == 0 then 0 else if re(s[..n]) then n else Longest(s, n - 1, re)
  }

  function EgrepO(s: string, re: string -> bool): seq<string>
    decreases |s|
  {
    if s == "" then [] else
    var k := Longest(s, |s|, re);
    if k == 0 then EgrepO(s[1..], re) else [s[..k]] + EgrepO(s[k..], re)
  }

  lemma {:induction false} LongestIs(s: string, n: nat, k: nat, re: string -> bool)
    requires 0 < k <= n <= |s| && re(s[..k]) && forall j {:trigger s[..j]} :: k < j <= n ==> !re(s[..j])
    ensures Longest(s, n, re) == k
  {
    if n > k {
      assert !re(s[..n]);
      LongestIs(s, n - 1, k, re);
    }
  }

  /** A longest match at the front is reported first. */
  lemma MatchFirst(m: string, rest: string, re: string -> bool)
    requires m != "" && re(m) && forall j {:trigger (m + rest)[..j]} :: |m| < j <= |m + rest| ==> !re((m + rest)[..j])
    ensures EgrepO(m + rest, re) == [m] + EgrepO(rest, re)
  {
    var s := m + rest;
    assert s[..|m|] == m && s[|m|..] == rest;
    LongestIs(s, |s|, |m|, re);
  }

  /** Where nothing matches, the scan moves on by one character. */
  lemma NoMatchHere(s: string, re: string -> bool)
    requires s != "" && forall j {:trigger s[..j]} :: 0 < j <= |s| ==> !re(s[..j])
    ensures EgrepO(s, re) == EgrepO(s[1..], re)
  {
  }

  /** tr ',' ' ' */
  function Tr(s: string): string {
    if s == "" then "" else [if s[0] == ',' then ' ' else s[0]] + Tr(s[1..])
  }

  /** sed 's/ /  /g' */
  function Double(s: string): string {
    if s == "" then "" else (if s[0] == ' ' then "  " else [s[0]]) + Double(s[1..])
  }

  lemma {:induction false} TrMeans(s: string)
    ensures |Tr(s)| == |s|
    ensures forall i :: 0 <= i < |s| ==> Tr(s)[i] == if s[i] == ',' then ' ' else s[i]
  {
    if s != "" {
      TrMeans(s[1..]);
    }
  }

  /** Together with DoubleConcat this says what every character becomes. */
  lemma DoubleMeans(c: char)
    ensures Double([c]) == if c == ' ' then "  " else [c]
    ensures Double("") == ""
  {
    assert [c][1..] == "";
  }

  predicate Digit(c: char) { '0' <= c <= '9' }

  predicate Digits(s: string) { forall i :: 0 <= i < |s| ==> Digit(s[i]) }

  /** The position of the first character that is not a digit. */
  function Run(s: string): (k: nat)
    ensures k <= |s| && Digits(s[..k]) && (k < |s| ==> !Digit(s[k]))
  {
    if s == "" || !Digit(s[0]) then 0 else 1 + Run(s[1..])
  }

  /** [0-9]+-[0-9]+ */
  predicate IsRange(s: string) {
    var k := Run(s);
    0 < k < |s| - 1 && s[k] == '-' && Digits(s[k + 1..])
  }

  /** A digit string between two spaces. */
  predicate IsPadded(s: string) {
    |s| > 2 && s[0] == ' ' && s[|s| - 1] == ' ' && Digits(s[1..|s| - 1])
  }

  /** The two patterns as expressions say. */
  lemma IsRangeMeans(s: string)
    ensures IsRange(s) <==> exists a, b {:trigger a + "-" + b} ::
              a != "" && b != "" && Digits(a) && Digits(b) && s == a + "-" + b
  {
    if IsRange(s) {
      var k := Run(s);
      assert s == s[..k] + "-" + s[k + 1..];
    }
    forall a, b | a != "" && b != "" && Digits(a) && Digits(b) && s == a + "-" + b ensures IsRange(s) {
      assert s == a + ("-" + b);
      RunOf(a, "-" + b);
      assert s[|a| + 1..] == b;
    }
  }

  lemma IsPaddedMeans(s: string)
    ensures IsPadded(s) <==> exists d {:trigger " " + d + " "} :: d != "" && Digits(d) && s == " " + d + " "
  {
    if IsPadded(s) {
      assert s == " " + s[1..|s| - 1] + " ";
    }
    forall d | d != "" && Digits(d) && s == " " + d + " " ensures IsPadded(s) {
      assert s[1..|s| - 1] == d;
    }
  }

  function Value(s: string): nat
    requires Digits(s)
  {
    if s == "" then 0 else 10 * Value(s[..|s| - 1]) + (s[|s| - 1] - '0') as nat
  }

  function Decimal(n: nat): (s: string)
    ensures s != "" && Digits(s)
  {
    (if n < 10 then "" else Decimal(n / 10)) + [(n % 10) as char + '0']
  }

  lemma {:induction false} DecimalValue(n: nat)
    ensures Value(Decimal(n)) == n
  {
    var s := Decimal(n);
    if n >= 10 {
      DecimalValue(n / 10);
      assert s[..|s| - 1] == Decimal(n / 10);
    } else {
      assert s[..|s| - 1] == "";
    }
  }

  function Pow10(n: nat): nat { if n == 0 then 1 else 10 * Pow10(n - 1) }

  /** The value is that of the digits in base ten, the last one counting once. */
  lemma {:induction false} ValueConcat(s: string, t: string)
    requires Digits(s) && Digits(t)
    ensures Value(s + t) == Value(s) * Pow10(|t|) + Value(t)
    decreases |t|
  {
    if t == "" {
      assert s + t == s;
    } else {
      var n := |t| - 1;
      assert (s + t)[..|s + t| - 1] == s + t[..n] && (s + t)[|s + t| - 1] == t[n];
      ValueConcat(s, t[..n]);
      ShiftByTen(Value(s), Pow10(n), Value(t[..n]));
    }
  }

  lemma ShiftByTen(a: nat, p: nat, b: nat)
    ensures 10 * (a * p + b) == a * (10 * p) + 10 * b
  {
  }

  lemma ValueOfDigit(c: char)
    requires Digit(c)
    ensures Value([c]) == (c - '0') as nat
  {
    assert [c][..0] == "";
  }

  /** A number as it is printed: without leading zeros. */
  predicate Canonical(s: string) { s == "0" || (s != "" && Digits(s) && s[0] != '0') }

  lemma {:induction false} DecimalCanonical(n: nat)
    ensures Canonical(Decimal(n))
  {
    if n >= 10 {
      DecimalCanonical(n / 10);
      ZeroIsShort(n / 10);
    }
  }

  lemma {:induction false} ZeroIsShort(n: nat)
    requires n > 0
    ensures Decimal(n)[0] != '0'
  {
    if n >= 10 {
      ZeroIsShort(n / 10);
    }
  }

  /** Printing a number and reading a printed number back are inverse to each other. */
  lemma {:induction false} DecimalOfValue(s: string)
    requires Canonical(s)
    ensures Decimal(Value(s)) == s
    decreases |s|
  {
    hide Value, Decimal;
    var n := |s| - 1;
    var front := s[..n];
    assert s == front + [s[n]];
    ValueOfDigit(s[n]);
    if n == 0 {
      assert s == [s[0]];
      DecimalDigit(s[0]);
    } else {
      DecimalOfValue(front);
      LeadingDigit(front);
      LastDigit(s);
      DecimalStep(Value(front), s[n]);
    }
  }

  lemma LastDigit(s: string)
    requires s != "" && Digits(s)
    ensures Value(s) == 10 * Value(s[..|s| - 1]) + (s[|s| - 1] - '0') as nat
  {
  }

  lemma DecimalDigit(c: char)
    requires Digit(c)
    ensures Decimal((c - '0') as nat) == [c]
  {
  }

  lemma DecimalStep(n: nat, c: char)
    requires n > 0 && Digit(c)
    ensures Decimal(10 * n + (c - '0') as nat) == Decimal(n) + [c]
  {
    var d := (c - '0') as nat;
    assert (10 * n + d) / 10 == n && (10 * n + d) % 10 == d;
  }

  lemma {:induction false} LeadingDigit(s: string)
    requires s != "" && Digits(s) && s[0] != '0'
    ensures Value(s) > 0
    decreases |s|
  {
    if |s| > 1 {
      LeadingDigit(s[..|s| - 1]);
    }
  }

  /** seq a b */
  function Seq(a: nat, b: nat): seq<string>
    decreases b + 1 - a
  {
    if a > b then [] else [Decimal(a)] + Seq(a + 1, b)
  }

  lemma {:induction false} SeqAt(a: nat, b: nat, k: nat)
    requires a + k <= b
    ensures k < |Seq(a, b)| && Seq(a, b)[k] == Decimal(a + k)
    decreases k
  {
    if k > 0 {
      SeqAt(a + 1, b, k - 1);
    }
  }

  lemma {:induction false} SeqLength(a: nat, b: nat)
    requires a <= b + 1
    ensures |Seq(a, b)| == b + 1 - a
    decreases b + 1 - a
  {
    if a <= b {
      SeqLength(a + 1, b);
    }
  }

  /** The numbers from `a` to `b`, each printed without leading zeros. */
  lemma SeqCounts(a: nat, b: nat)
    requires a <= b + 1
    ensures |Seq(a, b)| == b + 1 - a
    ensures forall k :: 0 <= k < |Seq(a, b)| ==>
              var w := Seq(a, b)[k]; Digits(w) && Value(w) == a + k && Canonical(w)
  {
    hide Value, Decimal, Digits, Canonical, Seq;
    SeqLength(a, b);
    forall k | 0 <= k < |Seq(a, b)|
      ensures var w := Seq(a, b)[k]; Digits(w) && Value(w) == a + k && Canonical(w)
    {
      SeqAt(a, b, k);
      DecimalValue(a + k);
      DecimalCanonical(a + k);
    }
  }

  // ------------------------------------------------------------------ get_index

  /** The words get_index prints, or its failure on a range that runs backwards. */
  datatype Answer = Words(ws: seq<string>) | Failed

  function Low(r: string): nat
    requires IsRange(r)
  {
    Value(r[..Run(r)])
  }

  function High(r: string): nat
    requires IsRange(r)
  {
    Value(r[Run(r) + 1..])
  }

  predicate AllRanges(rs: seq<string>) { forall i :: 0 <= i < |rs| ==> IsRange(rs[i]) }

  lemma {:induction false} EgrepMatches(s: string, re: string -> bool)
    ensures forall i :: 0 <= i < |EgrepO(s, re)| ==> re(EgrepO(s, re)[i])
    decreases |s|
  {
    if s != "" {
      var k := Longest(s, |s|, re);
      EgrepMatches(if k == 0 then s[1..] else s[k..], re);
    }
  }

  /** The expansion of the ranges in order; none if one runs backwards. */
  function Expand(rs: seq<string>): Option<seq<string>>
    requires AllRanges(rs)
  {
    if rs == [] then Some([]) else
    var n := |rs| - 1;
    match Expand(rs[..n])
    case None => None
    case Some(ws) => if Low(rs[n]) > High(rs[n]) then None else Some(ws + Seq(Low(rs[n]), High(rs[n])))
  }

  /** Splitting a padded match into words leaves the digits. */
  function Trim(ms: seq<string>): seq<string> {
    if ms == [] then [] else [if |ms[0]| >= 2 then ms[0][1..|ms[0]| - 1] else ""] + Trim(ms[1..])
  }

  function Singles(arg: string): seq<string> {
    Trim(EgrepO(Double(Tr(" " + arg + " ")), IsPadded))
  }

  function GetIndex(arg: string): Answer {
    EgrepMatches(arg, IsRange);
    match Expand(EgrepO(arg, IsRange))
    case None => Failed
    case Some(ws) => Words(ws + Singles(arg))
  }

  /** get_index with its accumulating loop over the ranges. */
  method RunGetIndex(arg: string) returns (out: Answer)
    ensures out == GetIndex(arg)
  {
    hide EgrepO, IsRange, Low, High, Seq, Singles;
    EgrepMatches(arg, IsRange);
    var rs := EgrepO(arg, IsRange);
    var words := [];
    for i := 0 to |rs|
      invariant AllRanges(rs) && rs == EgrepO(arg, IsRange)
      invariant Expand(rs[..i]) == Some(words)
    {
      assert rs[..i + 1][..i] == rs[..i];
      if Low(rs[i]) > High(rs[i]) {
        ExpandFails(rs, i + 1);
        return Failed;
      }
      words := words + Seq(Low(rs[i]), High(rs[i]));
    }
    assert rs[..|rs|] == rs;
    out := Words(words + Singles(arg));
  }

  lemma {:induction false} ExpandFails(rs: seq<string>, i: nat)
    requires AllRanges(rs) && i <= |rs| && Expand(rs[..i]) == None
    ensures Expand(rs) == None
    decreases |rs|
  {
    if i == |rs| {
      assert rs[..i] == rs;
    } else {
      assert rs[..|rs| - 1][..i] == rs[..i];
      ExpandFails(rs[..|rs| - 1], i);
    }
  }

  // ------------------------------------------------------------------ the printed lists

  /** An entry of an index list. */
  datatype Item = One(d: string) | Range(a: string, b: string)

  predicate Number(s: string) { s != "" && Digits(s) }

  predicate WellFormed(x: Item) {
    if x.One? then Number(x.d) else Number(x.a) && Number(x.b)
  }

  predicate AllWellFormed(xs: seq<Item>) { forall i :: 0 <= i < |xs| ==> WellFormed(xs[i]) }

  function Text(x: Item): string {
    if x.One? then x.d else x.a + "-" + x.b
  }

  /** The words joined with commas. */
  function Commas(ws: seq<string>): string {
    if ws == [] then "" else if |ws| == 1 then ws[0] else ws[0] + "," + Commas(ws[1..])
  }

  function Texts(xs: seq<Item>): seq<string> {
    if xs == [] then [] else [Text(xs[0])] + Texts(xs[1..])
  }

  lemma {:induction false} CommasSnoc(ws: seq<string>, w: string)
    requires ws != []
    ensures Commas(ws + [w]) == Commas(ws) + "," + w
    decreases |ws|
  {
    assert (ws + [w])[1..] == ws[1..] + [w];
    if |ws| > 1 {
      CommasSnoc(ws[1..], w);
    }
  }

  /** The words from the first one that is not empty. */
  function FromFirst(ws: seq<string>): seq<string> {
    if ws == [] then [] else if ws[0] == "" then FromFirst(ws[1..]) else ws
  }

  lemma {:induction false} FromFirstSnoc(ws: seq<string>, w: string)
    ensures FromFirst(ws + [w]) ==
            if FromFirst(ws) != [] then FromFirst(ws) + [w] else if w == "" then [] else [w]
    decreases |ws|
  {
    if ws == [] {
      assert ws + [w] == [w] && [w][1..] == [];
    } else {
      assert (ws + [w])[1..] == ws[1..] + [w];
      if ws[0] == "" {
        FromFirstSnoc(ws[1..], w);
      }
    }
  }

  lemma {:induction false} FromFirstMeans(ws: seq<string>)
    ensures (forall i :: 0 <= i < |ws| ==> ws[i] == "") ==> Commas(FromFirst(ws)) == ""
    ensures forall k :: 0 <= k < |ws| && ws[k] != "" && (forall i :: 0 <= i < k ==> ws[i] == "") ==>
              FromFirst(ws) == ws[k..]
  {
    if ws != [] && ws[0] == "" {
      FromFirstMeans(ws[1..]);
      forall k | 0 <= k < |ws| && ws[k] != "" && (forall i :: 0 <= i < k ==> ws[i] == "")
        ensures FromFirst(ws) == ws[k..]
      {
        assert ws[1..][k - 1] == ws[k] && ws[1..][k - 1..] == ws[k..];
      }
    }
  }

  lemma JoinStep(ws: seq<string>, w: string)
    ensures Commas(FromFirst(ws + [w])) ==
            if Commas(FromFirst(ws)) == "" then w else Commas(FromFirst(ws)) + "," + w
  {
    FromFirstSnoc(ws, w);
    CommasOfFirst(ws);
    if FromFirst(ws) != [] {
      CommasSnoc(FromFirst(ws), w);
    }
  }

  lemma {:induction false} CommasOfFirst(ws: seq<string>)
    ensures Commas(FromFirst(ws)) == "" <==> FromFirst(ws) == []
  {
    if ws != [] && ws[0] == "" {
      CommasOfFirst(ws[1..]);
    }
  }

  /** The loop of start_or_stop_all, which puts a comma before an entry when the list built so
    far is not empty: empty entries at the front leave no trace, and the rest is joined. */
  method Join(words: seq<string>) returns (list: string)
    ensures list == Commas(FromFirst(words))
    ensures (forall i :: 0 <= i < |words| ==> words[i] == "") ==> list == ""
    ensures forall k :: 0 <= k < |words| && words[k] != "" && (forall i :: 0 <= i < k ==> words[i] == "") ==>
              list == Commas(words[k..])
  {
    hide Commas, FromFirst;
    list := "";
    JoinNothing();
    for i := 0 to |words|
      invariant list == Commas(FromFirst(words[..i]))
    {
      assert words[..i + 1] == words[..i] + [words[i]];
      JoinStep(words[..i], words[i]);
      if list == "" {
        list := words[i];
      } else {
        list := list + "," + words[i];
      }
    }
    assert words[..|words|] == words;
    FromFirstMeans(words);
  }

  lemma JoinNothing()
    ensures Commas(FromFirst([])) == ""
  {
  }

  // ------------------------------------------------------------------ the ranges are found

  /** The rest of a list after one of its entries: nothing, or a comma and more. */
  predicate Tail(rest: string) { rest == "" || rest[0] == ',' }

  lemma {:induction false} RunOf(d: string, rest: string)
    requires Digits(d) && (rest == "" || !Digit(rest[0]))
    ensures Run(d + rest) == |d|
  {
    if d == "" {
      assert d + rest == rest;
    } else {
      assert (d + rest)[1..] == d[1..] + rest;
      RunOf(d[1..], rest);
    }
  }

  /** No prefix of digits followed by a comma is a range. */
  lemma NoRangeHere(d: string, rest: string, j: nat)
    requires Digits(d) && Tail(rest) && j <= |d + rest|
    ensures !IsRange((d + rest)[..j])
  {
    var p := (d + rest)[..j];
    if j <= |d| {
      assert p == p + "" && Digits(p);
      RunOf(p, "");
    } else {
      assert p == d + rest[..j - |d|];
      RunOf(d, rest[..j - |d|]);
    }
  }

  lemma {:induction false} SkipDigits(d: string, rest: string)
    requires Digits(d) && Tail(rest)
    ensures EgrepO(d + rest, IsRange) == EgrepO(if rest == "" then "" else rest[1..], IsRange)
    decreases |d|
  {
    var s := d + rest;
    forall j | 0 <= j <= |s| ensures !IsRange(s[..j]) {
      NoRangeHere(d, rest, j);
    }
    if d != "" {
      assert s[1..] == d[1..] + rest;
      SkipDigits(d[1..], rest);
    } else {
      assert s == rest;
    }
  }

  lemma TakeRange(a: string, b: string, rest: string)
    requires Number(a) && Number(b) && Tail(rest)
    ensures EgrepO(a + "-" + b + rest, IsRange) == [a + "-" + b] + EgrepO(if rest == "" then "" else rest[1..], IsRange)
  {
    hide IsRange;
    var r := a + "-" + b;
    RangeItself(a, b);
    forall j | |r| < j <= |r + rest| ensures !IsRange((r + rest)[..j]) {
      NoLongerRange(a, b, rest, j);
    }
    MatchFirst(r, rest, IsRange);
    SkipDigits("", rest);
    assert "" + rest == rest;
  }

  lemma RangeItself(a: string, b: string)
    requires Number(a) && Number(b)
    ensures IsRange(a + "-" + b) && Run(a + "-" + b) == |a|
  {
    hide Run;
    var s := a + "-" + b;
    assert s == a + ("-" + b);
    RunOf(a, "-" + b);
    assert s[|a|] == '-' && s[|a| + 1..] == b;
  }

  lemma NoLongerRange(a: string, b: string, rest: string, j: nat)
    requires Number(a) && Number(b) && Tail(rest) && |a| + 1 + |b| < j <= |a + "-" + b + rest|
    ensures !IsRange((a + "-" + b + rest)[..j])
  {
    var s := (a + "-" + b + rest)[..j];
    var after := "-" + b + rest[..j - |a| - 1 - |b|];
    assert s == a + after;
    RunOf(a, after);
    assert s[|a| + 1..][|b|] == rest[0] == ',';
  }

  function RangesOf(xs: seq<Item>): seq<string> {
    if xs == [] then [] else (if xs[0].Range? then [Text(xs[0])] else []) + RangesOf(xs[1..])
  }

  lemma {:induction false} FindsRanges(xs: seq<Item>)
    requires AllWellFormed(xs)
    ensures EgrepO(Commas(Texts(xs)), IsRange) == RangesOf(xs)
    decreases |xs|
  {
    if xs != [] {
      FindsRanges(xs[1..]);
      var more := Commas(Texts(xs[1..]));
      var rest := if |xs| == 1 then "" else "," + more;
      assert Commas(Texts(xs)) == Text(xs[0]) + rest;
      if rest != "" {
        assert rest[1..] == more;
      }
      match xs[0]
      case One(d) => SkipDigits(d, rest);
      case Range(a, b) => TakeRange(a, b, rest);
    }
  }

  // ------------------------------------------------------------------ the single indices are found

  lemma {:induction false} TrConcat(s: string, t: string)
    ensures Tr(s + t) == Tr(s) + Tr(t)
  {
    if s == "" {
      assert s + t == t;
    } else {
      assert (s + t)[1..] == s[1..] + t;
      TrConcat(s[1..], t);
    }
  }

  lemma {:induction false} DoubleConcat(s: string, t: string)
    ensures Double(s + t) == Double(s) + Double(t)
  {
    if s == "" {
      assert s + t == t;
    } else {
      assert (s + t)[1..] == s[1..] + t;
      DoubleConcat(s[1..], t);
    }
  }

  predicate Plain(s: string) { forall i :: 0 <= i < |s| ==> Digit(s[i]) || s[i] == '-' }

  lemma {:induction false} PlainKept(s: string)
    requires Plain(s)
    ensures Tr(s) == s && Double(s) == s
  {
    if s != "" {
      PlainKept(s[1..]);
    }
  }

  function Pipe(s: string): string { Double(Tr(s)) }

  lemma PipeConcat(s: string, t: string)
    ensures Pipe(s + t) == Pipe(s) + Pipe(t)
  {
    TrConcat(s, t);
    DoubleConcat(Tr(s), Tr(t));
  }

  lemma PipePlain(s: string)
    requires Plain(s)
    ensures Pipe(s) == s
  {
    PlainKept(s);
  }

  lemma PipeSeparators()
    ensures Pipe(" ") == "  " && Pipe(",") == "  "
  {
    assert Tr(" ") == " " && Tr(",") == " " && Double(" ") == "  ";
  }

  /** Every entry followed by two spaces. */
  function Flat(xs: seq<Item>): string {
    if xs == [] then "" else Text(xs[0]) + "  " + Flat(xs[1..])
  }

  lemma {:induction false} PipeCommas(xs: seq<Item>)
    requires AllWellFormed(xs) && xs != []
    ensures Pipe(Commas(Texts(xs)) + " ") == Flat(xs)
    decreases |xs|
  {
    hide Pipe, Number;
    PipeSeparators();
    var t := Text(xs[0]);
    TextIsPlain(xs[0]);
    PipePlain(t);
    if |xs| == 1 {
      assert Commas(Texts(xs)) == t;
      PipeConcat(t, " ");
      assert Flat(xs) == t + "  " + "";
    } else {
      var more := Commas(Texts(xs[1..])) + " ";
      PipeCommas(xs[1..]);
      assert Commas(Texts(xs)) + " " == t + ("," + more);
      PipeConcat(t, "," + more);
      PipeConcat(",", more);
    }
  }

  lemma TextIsPlain(x: Item)
    requires WellFormed(x)
    ensures Plain(Text(x))
  {
  }

  /** What the scan has to match after the first space of the gap before some entries. */
  lemma {:induction false} SkipPlain(t: string, rest: string)
    requires Plain(t)
    ensures EgrepO(t + rest, IsPadded) == EgrepO(rest, IsPadded)
    decreases |t|
  {
    if t == "" {
      assert t + rest == rest;
    } else {
      var s := t + rest;
      assert s[1..] == t[1..] + rest;
      SkipPlain(t[1..], rest);
      assert s[0] != ' ';
    }
  }

  /** A space followed by a space, or by nothing, starts no match. */
  lemma SkipSpace(rest: string)
    requires rest == "" || rest[0] == ' '
    ensures EgrepO(" " + rest, IsPadded) == EgrepO(rest, IsPadded)
  {
    var s := " " + rest;
    forall j | 0 < j <= |s| ensures !IsPadded(s[..j]) {
      if j > 2 {
        assert s[..j][1..j - 1][0] == ' ';
      }
    }
    assert s[1..] == rest;
  }

  lemma TakeOne(d: string, rest: string)
    requires Number(d)
    ensures EgrepO(" " + d + "  " + rest, IsPadded) == [" " + d + " "] + EgrepO(" " + rest, IsPadded)
  {
    var m := " " + d + " ";
    var s := m + (" " + rest);
    assert s == " " + d + "  " + rest;
    assert m[1..|m| - 1] == d;
    forall j | |m| < j <= |s| ensures !IsPadded(s[..j]) {
      var inner := s[..j][1..j - 1];
      assert inner[|d|] == s[|d| + 1] == ' ';
    }
    MatchFirst(m, " " + rest, IsPadded);
  }

  /** A prefix of a padded range ends in a digit or the hyphen, or has the hyphen inside. */
  lemma NotPadded(a: string, more: string, j: nat)
    requires Number(a) && j <= |" " + a + "-" + more|
    ensures !IsPadded((" " + a + "-" + more)[..j])
  {
    var p := (" " + a + "-" + more)[..j];
    if j > |a| + 2 {
      assert p[|a| + 1] == '-';
      assert p[1..j - 1][|a|] == '-';
    } else if j == |a| + 2 {
      assert p[j - 1] == '-';
    } else if j > 1 {
      assert p[j - 1] == a[j - 2];
    }
  }

  lemma PassRange(a: string, b: string, rest: string)
    requires Number(a) && Number(b)
    ensures EgrepO(" " + (a + "-" + b) + "  " + rest, IsPadded) == EgrepO(" " + rest, IsPadded)
  {
    hide IsPadded, Number;
    var t := a + "-" + b;
    var s := " " + t + "  " + rest;
    Regroup(a, b, rest);
    forall j | 0 < j <= |s| ensures !IsPadded(s[..j]) {
      NotPadded(a, b + "  " + rest, j);
    }
    RangeIsPlain(a, b);
    SkipPlain(t, "  " + rest);
    SkipSpace(" " + rest);
  }

  lemma Regroup(a: string, b: string, rest: string)
    ensures var t := a + "-" + b;
            && " " + t + "  " + rest == " " + a + "-" + (b + "  " + rest)
            && (" " + t + "  " + rest)[1..] == t + ("  " + rest)
            && "  " + rest == " " + (" " + rest)
  {
  }

  lemma RangeIsPlain(a: string, b: string)
    requires Number(a) && Number(b)
    ensures Plain(a + "-" + b)
  {
  }

  function OnesOf(xs: seq<Item>): seq<string> {
    if xs == [] then [] else (if xs[0].One? then [xs[0].d] else []) + OnesOf(xs[1..])
  }

  lemma TrimPadded(d: string, ms: seq<string>)
    ensures Trim([" " + d + " "] + ms) == [d] + Trim(ms)
  {
    var m := " " + d + " ";
    assert ([m] + ms)[1..] == ms;
    assert m[1..|m| - 1] == d;
  }

  lemma {:induction false} FindsOnes(xs: seq<Item>)
    requires AllWellFormed(xs)
    ensures Trim(EgrepO(" " + Flat(xs), IsPadded)) == OnesOf(xs)
    decreases |xs|
  {
    hide Trim, EgrepO;
    if xs == [] {
      FindsNothing();
    } else {
      FindsOnes(xs[1..]);
      var rest := Flat(xs[1..]);
      assert " " + Flat(xs) == " " + Text(xs[0]) + "  " + rest;
      if xs[0].One? {
        TakeOne(xs[0].d, rest);
        TrimPadded(xs[0].d, EgrepO(" " + rest, IsPadded));
      } else {
        PassRange(xs[0].a, xs[0].b, rest);
      }
    }
  }

  lemma FindsNothing()
    ensures Trim(EgrepO(" " + Flat([]), IsPadded)) == []
  {
    SkipSpace("");
  }

  lemma NothingInSpaces()
    ensures EgrepO("    ", IsPadded) == []
  {
    SkipSpace("   ");
    SkipSpace("  ");
    SkipSpace(" ");
    SkipSpace("");
    assert " " + "   " == "    " && " " + "  " == "   " && " " + " " == "  " && " " + "" == " ";
  }

  /** After the pipeline the list starts with two spaces. */
  lemma PipeList(list: string)
    ensures Pipe(" " + list + " ") == "  " + Pipe(list + " ")
  {
    PipeSeparators();
    assert " " + list + " " == " " + (list + " ");
    PipeConcat(" ", list + " ");
  }

  lemma SinglesOf(xs: seq<Item>)
    requires AllWellFormed(xs)
    ensures Singles(Commas(Texts(xs))) == OnesOf(xs)
  {
    hide Tr, Double, IsPadded, Trim;
    var list := Commas(Texts(xs));
    PipeList(list);
    if xs == [] {
      PipeSeparators();
      assert list + " " == " " && "  " + "  " == "    ";
      NothingInSpaces();
      assert Trim([]) == [] by {
        TrimNothing();
      }
    } else {
      PipeCommas(xs);
      assert "  " + Flat(xs) == " " + (" " + Flat(xs));
      SkipSpace(" " + Flat(xs));
      FindsOnes(xs);
    }
  }

  lemma TrimNothing()
    ensures Trim([]) == []
  {
  }

  // ------------------------------------------------------------------ round trips

  predicate Backwards(x: Item)
    requires WellFormed(x)
  {
    x.Range? && Value(x.a) > Value(x.b)
  }

  /** The numbers of every range in order. */
  function Expansion(xs: seq<Item>): seq<string>
    requires AllWellFormed(xs)
  {
    if xs == [] then [] else
    (if xs[0].Range? then Seq(Value(xs[0].a), Value(xs[0].b)) else []) + Expansion(xs[1..])
  }

  lemma {:induction false} ExpandConcat(rs: seq<string>, r: string)
    requires AllRanges(rs) && IsRange(r)
    ensures AllRanges([r] + rs)
    ensures Expand([r] + rs) ==
            if Low(r) > High(r) || Expand(rs) == None then None
            else Some(Seq(Low(r), High(r)) + Expand(rs).value)
    decreases |rs|
  {
    hide IsRange, Low, High, Seq;
    var all := [r] + rs;
    var n := |rs|;
    if n == 0 {
      assert all[..0] == [];
      assert Expand(all[..0]) == Some([]);
      assert Seq(Low(r), High(r)) + [] == [] + Seq(Low(r), High(r));
    } else {
      var last := rs[n - 1];
      assert all[..n] == [r] + rs[..n - 1] && all[n] == last;
      ExpandConcat(rs[..n - 1], r);
      if Expand(rs[..n - 1]).Some? {
        var ws := Expand(rs[..n - 1]).value;
        var first, final := Seq(Low(r), High(r)), Seq(Low(last), High(last));
        assert first + ws + final == first + (ws + final);
      }
    }
  }

  predicate AnyBackwards(xs: seq<Item>)
    requires AllWellFormed(xs)
  {
    xs != [] && (Backwards(xs[0]) || AnyBackwards(xs[1..]))
  }

  lemma {:induction false} AnyBackwardsMeans(xs: seq<Item>)
    requires AllWellFormed(xs)
    ensures AnyBackwards(xs) <==> exists i :: 0 <= i < |xs| && Backwards(xs[i])
  {
    if xs != [] {
      var more := xs[1..];
      AnyBackwardsMeans(more);
      if AnyBackwards(more) {
        var i :| 0 <= i < |more| && Backwards(more[i]);
        assert Backwards(xs[i + 1]);
      }
      if i :| 0 <= i < |xs| && Backwards(xs[i]) {
        assert i > 0 ==> Backwards(more[i - 1]);
      }
    }
  }

  lemma {:induction false} ExpandRanges(xs: seq<Item>)
    requires AllWellFormed(xs)
    ensures AllRanges(RangesOf(xs))
    ensures Expand(RangesOf(xs)) == if AnyBackwards(xs) then None else Some(Expansion(xs))
    decreases |xs|
  {
    if xs != [] {
      hide Expand, Value, Seq, IsRange;
      ExpandRanges(xs[1..]);
      if xs[0].Range? {
        RangeText(xs[0].a, xs[0].b);
        ExpandConcat(RangesOf(xs[1..]), Text(xs[0]));
      } else {
        assert [] + RangesOf(xs[1..]) == RangesOf(xs[1..]) && [] + Expansion(xs[1..]) == Expansion(xs[1..]);
      }
    }
  }

  lemma RangeText(a: string, b: string)
    requires Number(a) && Number(b)
    ensures IsRange(a + "-" + b) && Low(a + "-" + b) == Value(a) && High(a + "-" + b) == Value(b)
  {
    RangeItself(a, b);
    assert (a + "-" + b)[..|a|] == a && (a + "-" + b)[|a| + 1..] == b;
  }

  /** A mixed list yields the expansions of its ranges in order and then its single indices in
    order; a single backwards range anywhere makes the whole answer a failure. */
  lemma MixedList(xs: seq<Item>)
    requires AllWellFormed(xs)
    ensures GetIndex(Commas(Texts(xs))) ==
            if exists i :: 0 <= i < |xs| && xs[i].Range? && Value(xs[i].a) > Value(xs[i].b) then Failed
            else Words(Expansion(xs) + OnesOf(xs))
  {
    hide Expand, Singles, Commas;
    FindsRanges(xs);
    SinglesOf(xs);
    ExpandRanges(xs);
    AnyBackwardsMeans(xs);
    assert forall i :: 0 <= i < |xs| ==> (Backwards(xs[i]) <==> xs[i].Range? && Value(xs[i].a) > Value(xs[i].b));
  }

  /** Both parts keep the order of the entries. */
  lemma {:induction false} InEntryOrder(xs: seq<Item>, ys: seq<Item>)
    requires AllWellFormed(xs) && AllWellFormed(ys)
    ensures AllWellFormed(xs + ys)
    ensures Expansion(xs + ys) == Expansion(xs) + Expansion(ys) && OnesOf(xs + ys) == OnesOf(xs) + OnesOf(ys)
  {
    hide Value, Seq, Expansion, OnesOf;
    if xs == [] {
      assert xs + ys == ys;
      NoEntries();
    } else {
      InEntryOrder(xs[1..], ys);
      assert (xs + ys)[1..] == xs[1..] + ys && (xs + ys)[0] == xs[0];
      FirstEntry(xs);
      FirstEntry(xs + ys);
    }
  }

  lemma NoEntries()
    ensures Expansion([]) == [] && OnesOf([]) == []
  {
  }

  lemma FirstEntry(xs: seq<Item>)
    requires AllWellFormed(xs) && xs != []
    ensures Expansion(xs) == (if xs[0].Range? then Seq(Value(xs[0].a), Value(xs[0].b)) else []) + Expansion(xs[1..])
    ensures OnesOf(xs) == (if xs[0].One? then [xs[0].d] else []) + OnesOf(xs[1..])
  {
  }

  lemma OneEntry(x: Item)
    requires WellFormed(x)
    ensures Expansion([x]) == if x.Range? then Seq(Value(x.a), Value(x.b)) else []
    ensures OnesOf([x]) == if x.One? then [x.d] else []
  {
    assert [x][1..] == [];
  }

  function Ones(ds: seq<string>): seq<Item> {
    if ds == [] then [] else [One(ds[0])] + Ones(ds[1..])
  }

  lemma {:induction false} OnesAreThemselves(ds: seq<string>)
    requires forall i :: 0 <= i < |ds| ==> Number(ds[i])
    ensures AllWellFormed(Ones(ds)) && Texts(Ones(ds)) == ds == OnesOf(Ones(ds)) && Expansion(Ones(ds)) == []
    ensures forall i :: 0 <= i < |Ones(ds)| ==> Ones(ds)[i].One?
  {
    if ds != [] {
      OnesAreThemselves(ds[1..]);
    }
  }

  /** Round trip: get_index gives back any list of digit strings joined with commas. */
  lemma RoundTrip(ds: seq<string>)
    requires forall i :: 0 <= i < |ds| ==> Number(ds[i])
    ensures GetIndex(Commas(ds)) == Words(ds)
  {
    hide GetIndex, Commas, Number, Value;
    OnesAreThemselves(ds);
    MixedList(Ones(ds));
    assert [] + ds == ds;
  }
}
