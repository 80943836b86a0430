/** default-scoring: which outputs the default judge takes for equal. */
module Comparers {

  /* ---- lines ---- */

  function FindNewline(s: string): (k: nat)
    ensures k <= |s|
    ensures k < |s| ==> s[k] == '\n'
    ensures forall j :: 0 <= j < k ==> s[j] != '\n'
  {
    if s == [] || s[0] == '\n' then 0 else 1 + FindNewline(s[1..])
  }

  /** What getline returns until the end of the file is met: a final newline is followed by one
      more, empty line. */
  function Lines(s: string): (lines: seq<string>)
    ensures lines != []
  {
    var k := FindNewline(s);
    if k == |s| then [s] else [s[..k]] + Lines(s[k + 1..])
  }

  predicate White(c: char) { c == ' ' || c == '\n' || c == '\r' || c == '\t' }

  function RightStripped(s: string): string {
    if s != [] && White(s[|s| - 1]) then RightStripped(s[..|s| - 1]) else s
  }

  predicate WordWhite(c: char) { White(c) || c == '\U{0B}' || c == '\U{0C}' }

  function FirstNonWhite(s: string, i: nat): (j: nat)
    requires i <= |s|
    ensures i <= j <= |s| && (j < |s| ==> !WordWhite(s[j]))
    ensures forall k :: i <= k < j ==> WordWhite(s[k])
    decreases |s| - i
  {
    if i < |s| && WordWhite(s[i]) then FirstNonWhite(s, i + 1) else i
  }

  function FirstWhite(s: string, i: nat): (j: nat)
    requires i <= |s|
    ensures i <= j <= |s| && (j < |s| ==> WordWhite(s[j]))
    ensures forall k :: i <= k < j ==> !WordWhite(s[k])
    decreases |s| - i
  {
    if i < |s| && !WordWhite(s[i]) then FirstWhite(s, i + 1) else i
  }

  function WordsFrom(s: string, i: nat): seq<string>
    requires i <= |s|
    decreases |s| - i
  {
    var j := FirstNonWhite(s, i);
    if j == |s| then [] else [s[j..FirstWhite(s, j)]] + WordsFrom(s, FirstWhite(s, j))
  }

  function Words(s: string): seq<string> { WordsFrom(s, 0) }

  /* ---- equality up to trailing blanks ---- */

  ghost predicate Blank<T>(x: seq<seq<T>>) { forall i :: 0 <= i < |x| ==> x[i] == [] }

  /** Equal as far as both go, and then nothing but empty entries. */
  ghost predicate Agree<T>(a: seq<seq<T>>, b: seq<seq<T>>) {
    var n := if |a| < |b| then |a| else |b|;
    a[..n] == b[..n] && Blank(a[n..]) && Blank(b[n..])
  }

  /** Without the empty entries at the end. */
  function Trimmed<T(==)>(x: seq<seq<T>>): seq<seq<T>> {
    if x != [] && x[|x| - 1] == [] then Trimmed(x[..|x| - 1]) else x
  }

  lemma {:induction false} TrimmedIs<T>(x: seq<seq<T>>)
    ensures Trimmed(x) <= x && Blank(x[|Trimmed(x)|..])
    ensures Trimmed(x) != [] ==> Trimmed(x)[|Trimmed(x)| - 1] != []
  {
    if x != [] && x[|x| - 1] == [] {
      TrimmedIs(x[..|x| - 1]);
    }
  }

  lemma PrefixesOf<T>(a: seq<seq<T>>, p: seq<seq<T>>, q: seq<seq<T>>)
    requires p <= a && q <= a && |p| <= |q| && Blank(a[|p|..])
    requires q != [] ==> q[|q| - 1] != []
    ensures p == q
  {
    forall i | |p| <= i < |a| ensures a[i] == [] { assert a[|p|..][i - |p|] == []; }
  }

  /** The canonical form decides. */
  lemma AgreeIffTrimmed<T>(a: seq<seq<T>>, b: seq<seq<T>>)
    ensures Agree(a, b) <==> Trimmed(a) == Trimmed(b)
  {
    TrimmedIs(a);
    TrimmedIs(b);
    var p, q := Trimmed(a), Trimmed(b);
    if p == q {
      var n := if |a| < |b| then |a| else |b|;
      forall i | 0 <= i < n ensures a[i] == b[i] {
        if i >= |p| { assert a[|p|..][i - |p|] == [] && b[|p|..][i - |p|] == []; }
      }
      BlankDrops(a, |p|, n);
      BlankDrops(b, |p|, n);
    }
    if Agree(a, b) {
      if |a| <= |b| { LongerAgrees(b, a); } else { LongerAgrees(a, b); }
    }
  }

  lemma BlankDrops<T>(x: seq<seq<T>>, m: nat, n: nat)
    requires m <= n <= |x| && Blank(x[m..])
    ensures Blank(x[n..])
  {
    forall i | 0 <= i < |x[n..]| ensures x[n..][i] == [] { assert x[m..][n - m + i] == []; }
  }

  lemma LongerAgrees<T>(long: seq<seq<T>>, short: seq<seq<T>>)
    requires |short| <= |long| && Agree(long, short)
    ensures Trimmed(long) == Trimmed(short)
  {
    TrimmedIs(long);
    TrimmedIs(short);
    var p, q := Trimmed(long), Trimmed(short);
    assert long[..|short|] == short;
    forall i | |q| <= i < |long| ensures long[i] == [] {
      if i < |short| { assert short[|q|..][i - |q|] == []; } else { assert long[|short|..][i - |short|] == []; }
    }
    if |q| <= |p| { PrefixesOf(long, q, p); } else { PrefixesOf(long, p, q); }
  }

  /* ---- the canonical forms ---- */

  function StripAll(lines: seq<string>): (r: seq<string>)
    ensures |r| == |lines| && forall i :: 0 <= i < |lines| ==> r[i] == RightStripped(lines[i])
  {
    seq(|lines|, i requires 0 <= i < |lines| => RightStripped(lines[i]))
  }

  function WordsOfAll(lines: seq<string>): (r: seq<seq<string>>)
    ensures |r| == |lines| && forall i :: 0 <= i < |lines| ==> r[i] == Words(lines[i])
  {
    seq(|lines|, i requires 0 <= i < |lines| => Words(lines[i]))
  }

  /** Lines without white space at their ends, without blank lines at the end. */
  function LineForm(text: string): seq<string> { Trimmed(StripAll(Lines(text))) }

  /** The words of each line, without wordless lines at the end. */
  function WordForm(text: string): seq<seq<string>> { Trimmed(WordsOfAll(Lines(text))) }

  lemma {:induction false} WordsIgnoreTail(s: string, i: nat)
    requires i <= |RightStripped(s)| <= |s| && RightStripped(s) == s[..|RightStripped(s)|]
    requires forall k :: |RightStripped(s)| <= k < |s| ==> WordWhite(s[k])
    ensures WordsFrom(RightStripped(s), i) == WordsFrom(s, i)
    decreases |s| - i
  {
    var r := RightStripped(s);
    NonWhiteOfPrefix(s, r, i);
    var j := FirstNonWhite(s, i);
    if j < |r| {
      WhiteOfPrefix(s, r, j);
      assert s[j..FirstWhite(s, j)] == r[j..FirstWhite(r, j)];
      WordsIgnoreTail(s, FirstWhite(r, j));
    }
  }

  lemma {:induction false} NonWhiteOfPrefix(s: string, r: string, i: nat)
    requires i <= |r| && r <= s && forall k :: |r| <= k < |s| ==> WordWhite(s[k])
    ensures FirstNonWhite(s, i) == if FirstNonWhite(r, i) < |r| then FirstNonWhite(r, i) else |s|
    decreases |r| - i
  {
    if i < |r| && WordWhite(r[i]) { NonWhiteOfPrefix(s, r, i + 1); }
  }

  lemma {:induction false} WhiteOfPrefix(s: string, r: string, i: nat)
    requires i < |r| && r <= s && !WordWhite(r[i]) && forall k :: |r| <= k < |s| ==> WordWhite(s[k])
    ensures FirstWhite(s, i) == FirstWhite(r, i)
    decreases |r| - i
  {
    if i + 1 < |r| && !WordWhite(r[i + 1]) { WhiteOfPrefix(s, r, i + 1); }
  }

  lemma {:induction false} StrippedIsPrefix(s: string)
    ensures RightStripped(s) <= s && forall k :: |RightStripped(s)| <= k < |s| ==> White(s[k])
  {
    if s != [] && White(s[|s| - 1]) { StrippedIsPrefix(s[..|s| - 1]); }
  }

  /** Stripping a line does not change its words. */
  lemma WordsOfStripped(s: string)
    ensures Words(RightStripped(s)) == Words(s)
  {
    StrippedIsPrefix(s);
    WordsIgnoreTail(s, 0);
  }

  /** Strict equality is the finest relation, line equality comes next, white-diff is the coarsest. */
  lemma StrictLineWords(a: string, b: string)
    ensures a == b ==> LineForm(a) == LineForm(b)
    ensures LineForm(a) == LineForm(b) ==> WordForm(a) == WordForm(b)
  {
    if LineForm(a) == LineForm(b) {
      var x, y := Lines(a), Lines(b);
      AgreeIffTrimmed(StripAll(x), StripAll(y));
      WordsAgree(x, y);
      AgreeIffTrimmed(WordsOfAll(x), WordsOfAll(y));
    }
  }

  lemma WordsAgree(x: seq<string>, y: seq<string>)
    requires Agree(StripAll(x), StripAll(y))
    ensures Agree(WordsOfAll(x), WordsOfAll(y))
  {
    var n := if |x| < |y| then |x| else |y|;
    forall i | 0 <= i < n ensures WordsOfAll(x)[i] == WordsOfAll(y)[i] {
      assert StripAll(x)[..n][i] == StripAll(y)[..n][i];
      WordsOfStripped(x[i]);
      WordsOfStripped(y[i]);
    }
    BlankWords(x, n);
    BlankWords(y, n);
  }

  lemma BlankWords(x: seq<string>, n: nat)
    requires n <= |x| && Blank(StripAll(x)[n..])
    ensures Blank(WordsOfAll(x)[n..])
  {
    forall i | 0 <= i < |x| - n ensures WordsOfAll(x)[n..][i] == [] {
      assert StripAll(x)[n..][i] == [];
      WordsOfStripped(x[n + i]);
      assert Words([]) == [];
    }
  }

  lemma FirstLine(s: string, k: nat)
    requires k <= |s| && (forall j :: 0 <= j < k ==> s[j] != '\n') && (k < |s| ==> s[k] == '\n')
    ensures Lines(s) == if k == |s| then [s[..k]] else [s[..k]] + Lines(s[k + 1..])
  {
    assert FindNewline(s) == k;
    hide FindNewline;
    assert s[..|s|] == s;
  }

  method ScanLine(data: string, pos: nat) returns (end: nat)
    requires pos <= |data|
    ensures pos <= end <= |data| && (end < |data| ==> data[end] == '\n')
    ensures forall j :: 0 <= j < end - pos ==> data[pos..][j] != '\n'
  {
    end := pos;
    while end < |data| && data[end] != '\n'
      invariant pos <= end <= |data|
      invariant forall j :: pos <= j < end ==> data[j] != '\n'
    {
      end := end + 1;
    }
  }

  lemma TakeOne<T>(a: seq<T>, k: nat, x: T, rest: seq<T>)
    requires k <= |a| && a[k..] == [x] + rest
    ensures k < |a| && a[k] == x && rest == a[k + 1..]
  {
    assert a[k..][0] == x && a[k..][1..] == rest && a[k..][1..] == a[k + 1..];
  }

  lemma PrefixGrows<T>(x: seq<T>, y: seq<T>, k: nat)
    requires k < |x| && k < |y| && x[..k] == y[..k] && x[k] == y[k]
    ensures x[..k + 1] == y[..k + 1]
  {
    assert x[..k + 1] == x[..k] + [x[k]] && y[..k + 1] == y[..k] + [y[k]];
  }

  /* ---- streams ---- */

  /** An open input file. `eof` is set by the read that meets the end. */
  class Stream {
    const data: string
    var pos: nat
    var eof: bool

    ghost predicate Valid()
      reads this
    {
      pos <= |data|
    }

    /** The lines that are still to be read. */
    ghost function Rest(): seq<string>
      requires Valid()
      reads this
    {
      if eof then [] else Lines(data[pos..])
    }

    constructor (data: string)
      ensures Valid() && this.data == data && pos == 0 && !eof && Rest() == Lines(data)
    {
      this.data, pos, eof := data, 0, false;
      new;
      assert data[0..] == data;
    }

    /** Before the end there is always a line, if only an empty one. */
    lemma MoreToRead()
      requires Valid() && !eof
      ensures Rest() != []
    {
    }

    method GetLine() returns (line: string)
      requires Valid() && !eof
      modifies this
      ensures Valid() && old(Rest()) == [line] + Rest()
    {
      hide Lines;
      ghost var here := data[pos..];
      var end := ScanLine(data, pos);
      line := data[pos..end];
      FirstLine(here, end - pos);
      assert here[..end - pos] == line;
      if end == |data| {
        pos, eof := end, true;
      } else {
        assert here[end - pos + 1..] == data[end + 1..];
        pos := end + 1;
      }
    }

    /** At most `size` bytes; fewer only at the end of the file. */
    method Read(size: nat) returns (bytes: string)
      requires Valid()
      modifies this
      ensures Valid() && old(data[pos..]) == bytes + data[pos..]
      ensures |bytes| <= size && eof == (old(eof) || |bytes| < size)
      ensures |bytes| < size ==> pos == |data|
    {
      var end := if |data| - pos < size then |data| else pos + size;
      bytes := data[pos..end];
      eof := eof || |bytes| < size;
      pos := end;
    }
  }

  /* ---- the comparers ---- */

  /** find_last_not_of(whites) == npos */
  method AllWhite(line: string, white: char -> bool) returns (res: bool)
    ensures res == forall c :: c in line ==> white(c)
  {
    var j := |line|;
    while j > 0 && white(line[j - 1])
      invariant 0 <= j <= |line|
      invariant forall i :: j <= i < |line| ==> white(line[i])
    {
      j := j - 1;
    }
    if j > 0 {
      assert line[j - 1] in line;
      return false;
    }
    return true;
  }

  ghost predicate WhiteLine(line: string, white: char -> bool) { forall c :: c in line ==> white(c) }

  ghost predicate WhiteLines(lines: seq<string>, white: char -> bool) {
    forall i :: 0 <= i < |lines| ==> WhiteLine(lines[i], white)
  }

  method NextLine(ans: Stream, usr: Stream) returns (line: string)
    requires ans.Valid() && usr.Valid() && ans != usr && (!ans.eof || !usr.eof)
    modifies ans, usr
    ensures ans.Valid() && usr.Valid()
    ensures old(ans.Rest() + usr.Rest()) == [line] + (ans.Rest() + usr.Rest())
  {
    hide Lines;
    ghost var a, b := ans.Rest(), usr.Rest();
    if !ans.eof {
      line := ans.GetLine();
      assert a + b == [line] + (ans.Rest() + b);
    } else {
      line := usr.GetLine();
      assert a + b == [line] + (a + usr.Rest());
    }
  }

  /** The lines one file has left when the other has ended. */
  method OnlyBlanksLeft(ans: Stream, usr: Stream, white: char -> bool) returns (res: bool)
    requires ans.Valid() && usr.Valid() && ans != usr
    modifies ans, usr
    ensures res == WhiteLines(old(ans.Rest()) + old(usr.Rest()), white)
  {
    ghost var lines := ans.Rest() + usr.Rest();
    ghost var k := 0;
    while !ans.eof || !usr.eof
      invariant ans.Valid() && usr.Valid()
      invariant k <= |lines| && ans.Rest() + usr.Rest() == lines[k..]
      invariant forall i :: 0 <= i < k ==> WhiteLine(lines[i], white)
      decreases |lines| - k
    {
      var line := NextLine(ans, usr);
      TakeOne(lines, k, line, ans.Rest() + usr.Rest());
      var blank := AllWhite(line, white);
      if !blank { return false; }
      k := k + 1;
    }
    assert lines[k..] == [];
    return true;
  }

  lemma {:induction false} StrippedToNothing(s: string)
    ensures RightStripped(s) == [] <==> WhiteLine(s, White)
  {
    if s != [] {
      StrippedToNothing(s[..|s| - 1]);
      assert s == s[..|s| - 1] + [s[|s| - 1]];
    }
  }

  lemma NoWords(s: string)
    ensures Words(s) == [] <==> WhiteLine(s, WordWhite)
  {
    var j := FirstNonWhite(s, 0);
    assert j < |s| ==> s[j] in s;
  }

  lemma WhiteIsBlankStripped(lines: seq<string>)
    ensures WhiteLines(lines, White) <==> Blank(StripAll(lines))
  {
    forall i | 0 <= i < |lines| ensures StripAll(lines)[i] == [] <==> WhiteLine(lines[i], White) {
      StrippedToNothing(lines[i]);
    }
  }

  lemma WhiteIsBlankWords(lines: seq<string>)
    ensures WhiteLines(lines, WordWhite) <==> Blank(WordsOfAll(lines))
  {
    forall i | 0 <= i < |lines| ensures WordsOfAll(lines)[i] == [] <==> WhiteLine(lines[i], WordWhite) {
      NoWords(lines[i]);
    }
  }

  lemma BlankOfSum<T>(x: seq<seq<T>>, y: seq<seq<T>>)
    ensures Blank(x + y) <==> Blank(x) && Blank(y)
  {
    if Blank(x + y) {
      forall i | 0 <= i < |y| ensures y[i] == [] { assert (x + y)[|x| + i] == []; }
      forall i | 0 <= i < |x| ensures x[i] == [] { assert (x + y)[i] == []; }
    }
  }

  /** s.erase(s.find_last_not_of(kWhites) + 1) */
  method StripTail(s: string) returns (r: string)
    ensures r == RightStripped(s)
  {
    r := s;
    while r != [] && White(r[|r| - 1])
      invariant RightStripped(r) == RightStripped(s)
    {
      r := r[..|r| - 1];
    }
  }

  function LineKeys(strip: bool, lines: seq<string>): (r: seq<string>)
    ensures |r| == |lines|
  {
    if strip then StripAll(lines) else lines
  }

  /** What LineCompare accepts, for all its options. */
  ghost predicate LinesAgree(strip: bool, ignoreTail: bool, a: seq<string>, b: seq<string>) {
    var n := if |a| < |b| then |a| else |b|;
    && LineKeys(strip, a)[..n] == LineKeys(strip, b)[..n]
    && (|a| == |b| || (ignoreTail && Blank(StripAll(a)[n..]) && Blank(StripAll(b)[n..])))
  }

  /** The first k lines agree. */
  ghost predicate KeysAgree(strip: bool, a: seq<string>, b: seq<string>, k: nat) {
    k <= |a| && k <= |b| && LineKeys(strip, a)[..k] == LineKeys(strip, b)[..k]
  }

  lemma KeyStep(strip: bool, ignoreTail: bool, a: seq<string>, b: seq<string>, k: nat)
    requires KeysAgree(strip, a, b, k) && k < |a| && k < |b|
    ensures if LineKeys(strip, a)[k] == LineKeys(strip, b)[k] then KeysAgree(strip, a, b, k + 1)
            else !LinesAgree(strip, ignoreTail, a, b)
  {
    var x, y := LineKeys(strip, a), LineKeys(strip, b);
    hide LineKeys, StripAll, Blank;
    if x[k] == y[k] { PrefixGrows(x, y, k); } else { PrefixDiffers(x, y, k); }
  }

  /** One of the files has ended. */
  lemma KeysEnd(strip: bool, ignoreTail: bool, a: seq<string>, b: seq<string>, k: nat)
    requires KeysAgree(strip, a, b, k) && (k == |a| || k == |b|)
    ensures LinesAgree(strip, ignoreTail, a, b) <==> |a| == |b| || (ignoreTail && WhiteLines(a[k..] + b[k..], White))
  {
    TailBlank(a, b, k);
  }

  /** std::getline, and the tail stripped if asked for. */
  method NextKey(f: Stream, stripTail: bool, ghost lines: seq<string>, ghost k: nat) returns (s: string)
    requires f.Valid() && !f.eof && k <= |lines| && f.Rest() == lines[k..]
    modifies f
    ensures f.Valid() && k < |lines| && f.Rest() == lines[k + 1..] && s == LineKeys(stripTail, lines)[k]
  {
    hide Lines;
    s := f.GetLine();
    TakeOne(lines, k, s, f.Rest());
    if stripTail { s := StripTail(s); }
  }

  method LineCompare(ans: Stream, usr: Stream, stripTail: bool, ignoreTailEmptyLines: bool) returns (res: bool)
    requires ans.Valid() && usr.Valid() && ans != usr
    modifies ans, usr
    ensures res == LinesAgree(stripTail, ignoreTailEmptyLines, old(ans.Rest()), old(usr.Rest()))
  {
    hide Lines, LineKeys, StripAll, RightStripped, KeysAgree, LinesAgree, WhiteLines;
    ghost var a, b := ans.Rest(), usr.Rest();
    ghost var k := 0;
    NoLinesYet(stripTail, a, b);
    while ans.eof == usr.eof
      invariant ans.Valid() && usr.Valid() && k <= |a| && k <= |b| && ans.Rest() == a[k..] && usr.Rest() == b[k..]
      invariant KeysAgree(stripTail, a, b, k)
      decreases |a| - k
    {
      if ans.eof {
        KeysEnd(stripTail, ignoreTailEmptyLines, a, b, k);
        return true;
      }
      var s := NextKey(ans, stripTail, a, k);
      var t := NextKey(usr, stripTail, b, k);
      KeyStep(stripTail, ignoreTailEmptyLines, a, b, k);
      if s != t { return false; }
      k := k + 1;
    }
    if ans.eof { usr.MoreToRead(); } else { ans.MoreToRead(); }
    KeysEnd(stripTail, ignoreTailEmptyLines, a, b, k);
    if !ignoreTailEmptyLines { return false; }
    res := OnlyBlanksLeft(ans, usr, White);
  }

  lemma NoLinesYet(strip: bool, a: seq<string>, b: seq<string>)
    ensures KeysAgree(strip, a, b, 0) && a[0..] == a && b[0..] == b
  {
    hide LineKeys;
  }

  lemma PrefixDiffers<T>(x: seq<T>, y: seq<T>, k: nat)
    requires k < |x| && k < |y| && x[k] != y[k]
    ensures forall n :: k < n <= |x| && n <= |y| ==> x[..n] != y[..n]
  {
    forall n | k < n <= |x| && n <= |y| ensures x[..n] != y[..n] { assert x[..n][k] != y[..n][k]; }
  }

  lemma TailBlank(a: seq<string>, b: seq<string>, k: nat)
    requires k <= |a| && k <= |b|
    ensures WhiteLines(a[k..] + b[k..], White) <==> Blank(StripAll(a)[k..]) && Blank(StripAll(b)[k..])
  {
    WhiteIsBlankStripped(a[k..] + b[k..]);
    assert StripAll(a[k..] + b[k..]) == StripAll(a)[k..] + StripAll(b)[k..];
    BlankOfSum(StripAll(a)[k..], StripAll(b)[k..]);
  }

  /** With the options the judge uses, line comparison is equality of the canonical forms. */
  lemma LinesAgreeIffSameForm(a: string, b: string)
    ensures LinesAgree(true, true, Lines(a), Lines(b)) <==> LineForm(a) == LineForm(b)
  {
    AgreeIffTrimmed(StripAll(Lines(a)), StripAll(Lines(b)));
  }

  /** The loop over the words of two lines. */
  method SameWords(s: string, t: string) returns (res: bool)
    ensures res == (Words(s) == Words(t))
  {
    var i1, i2 := 0, 0;
    while true
      invariant i1 <= |s| && i2 <= |t|
      invariant Words(s) == Words(t) <==> WordsFrom(s, i1) == WordsFrom(t, i2)
      decreases |s| - i1
    {
      var from1, from2 := FirstNonWhite(s, i1), FirstNonWhite(t, i2);
      if (from1 == |s|) != (from2 == |t|) { return false; }
      if from1 == |s| { return true; }
      var to1, to2 := FirstWhite(s, from1), FirstWhite(t, from2);
      ghost var rest1, rest2 := WordsFrom(s, to1), WordsFrom(t, to2);
      assert WordsFrom(s, i1) == [s[from1..to1]] + rest1 && WordsFrom(t, i2) == [t[from2..to2]] + rest2;
      assert WordsFrom(s, i1)[0] == s[from1..to1] && WordsFrom(t, i2)[0] == t[from2..to2];
      if s[from1..to1] != t[from2..to2] { return false; }
      assert WordsFrom(s, i1)[1..] == rest1 && WordsFrom(t, i2)[1..] == rest2;
      i1, i2 := to1, to2;
    }
  }

  /** WordCompare with plain equality of words. */
  method WordCompare(ans: Stream, usr: Stream) returns (res: bool)
    requires ans.Valid() && usr.Valid() && ans != usr
    modifies ans, usr
    ensures res == Agree(WordsOfAll(old(ans.Rest())), WordsOfAll(old(usr.Rest())))
  {
    hide Lines, Words, WhiteLines;
    ghost var a, b := ans.Rest(), usr.Rest();
    ghost var k := 0;
    while ans.eof == usr.eof
      invariant ans.Valid() && usr.Valid() && k <= |a| && k <= |b| && ans.Rest() == a[k..] && usr.Rest() == b[k..]
      invariant WordsOfAll(a)[..k] == WordsOfAll(b)[..k]
      decreases |a| - k
    {
      if ans.eof { return true; }
      var s := ans.GetLine();
      var t := usr.GetLine();
      TakeOne(a, k, s, ans.Rest());
      TakeOne(b, k, t, usr.Rest());
      var same := SameWords(s, t);
      if !same {
        PrefixDiffers(WordsOfAll(a), WordsOfAll(b), k);
        return false;
      }
      PrefixGrows(WordsOfAll(a), WordsOfAll(b), k);
      k := k + 1;
    }
    if ans.eof { usr.MoreToRead(); } else { ans.MoreToRead(); }
    WordTailBlank(a, b, k);
    res := OnlyBlanksLeft(ans, usr, WordWhite);
  }

  lemma WordTailBlank(a: seq<string>, b: seq<string>, k: nat)
    requires k <= |a| && k <= |b|
    ensures WhiteLines(a[k..] + b[k..], WordWhite) <==> Blank(WordsOfAll(a)[k..]) && Blank(WordsOfAll(b)[k..])
  {
    WhiteIsBlankWords(a[k..] + b[k..]);
    assert WordsOfAll(a[k..] + b[k..]) == WordsOfAll(a)[k..] + WordsOfAll(b)[k..];
    BlankOfSum(WordsOfAll(a)[k..], WordsOfAll(b)[k..]);
  }

  /** Accepted by white-diff exactly when the canonical word forms are equal. */
  lemma WordsAgreeIffSameForm(a: string, b: string)
    ensures Agree(WordsOfAll(Lines(a)), WordsOfAll(Lines(b))) <==> WordForm(a) == WordForm(b)
  {
    AgreeIffTrimmed(WordsOfAll(Lines(a)), WordsOfAll(Lines(b)));
  }

  /** Two buffers at a time; the size of the buffer does not matter. */
  method StrictCompare(ans: Stream, usr: Stream, bufSize: nat) returns (res: bool)
    requires ans.Valid() && usr.Valid() && ans != usr && bufSize > 0 && !ans.eof && !usr.eof
    modifies ans, usr
    ensures res == (old(ans.data[ans.pos..]) == old(usr.data[usr.pos..]))
  {
    ghost var a, b := ans.data[ans.pos..], usr.data[usr.pos..];
    ghost var done := "";
    while !ans.eof
      invariant ans.Valid() && usr.Valid() && ans.eof == usr.eof
      invariant a == done + ans.data[ans.pos..] && b == done + usr.data[usr.pos..]
      invariant ans.eof ==> ans.pos == |ans.data| && usr.pos == |usr.data|
      decreases if ans.eof then 0 else 1, |ans.data| - ans.pos
    {
      ghost var restA, restB := ans.data[ans.pos..], usr.data[usr.pos..];
      var buf1 := ans.Read(bufSize);
      var buf2 := usr.Read(bufSize);
      BuffersDecide(done, buf1, ans.data[ans.pos..], buf2, usr.data[usr.pos..]);
      assert a == done + restA && b == done + restB;
      if ans.eof != usr.eof || |buf1| != |buf2| { return false; }
      if buf1 != buf2 { return false; }
      done := done + buf1;
    }
    return true;
  }

  lemma BuffersDecide(done: string, buf1: string, rest1: string, buf2: string, rest2: string)
    ensures |buf1| + |rest1| != |buf2| + |rest2| ==> done + (buf1 + rest1) != done + (buf2 + rest2)
    ensures |buf1| == |buf2| && buf1 != buf2 ==> done + (buf1 + rest1) != done + (buf2 + rest2)
    ensures done + (buf1 + rest1) == (done + buf1) + rest1 && done + (buf2 + rest2) == (done + buf2) + rest2
  {
    var a, b := buf1 + rest1, buf2 + rest2;
    assert (done + a)[|done|..] == a && (done + b)[|done|..] == b;
    if |buf1| == |buf2| { assert a[..|buf1|] == buf1 && b[..|buf2|] == buf2; }
  }
}
