/** String helpers with the meaning of the Python `str` methods the core uses:
    `split(sep)`, `sep.join`, `split(sep, 1)`, `rsplit(sep, 1)`, `split()`,
    slicing, `upper()`, `str(int)` and `int(str)`. */
module Text {
  import opened Wrappers

  // ---------------------------------------------------------------------------
  // Searching

  /** Index of the first `c` in `s`, or `|s|` when `c` does not occur. */
  function IndexOf(s: string, c: char): (i: nat)
    ensures i <= |s|
    ensures i < |s| ==> s[i] == c
    ensures c !in s[..i]
    ensures i == |s| <==> c !in s
  {
    if |s| == 0 then 0
    else if s[0] == c then 0
    else
      var j := IndexOf(s[1..], c);
      assert s[..j + 1] == [s[0]] + s[1..][..j];
      1 + j
  }

  /** Index of the last `c` in `s`, or -1 when `c` does not occur. */
  function LastIndexOf(s: string, c: char): (i: int)
    ensures -1 <= i < |s|
    ensures 0 <= i ==> s[i] == c && c !in s[i + 1..]
    ensures i == -1 <==> c !in s
  {
    if |s| == 0 then -1
    else if s[|s| - 1] == c then |s| - 1
    else
      var j := LastIndexOf(s[..|s| - 1], c);
      SnocAfter(s, j);
      j
  }

  /** Dropping the last character and cutting after `j` commute. */
  lemma SnocAfter(s: string, j: int)
    requires 0 < |s| && -1 <= j < |s| - 1
    ensures s[j + 1..] == s[..|s| - 1][j + 1..] + [s[|s| - 1]]
  {
  }

  lemma IndexOfConcat(a: string, c: char, b: string)
    requires c !in a
    ensures IndexOf(a + [c] + b, c) == |a|
  {
    var s := a + [c] + b;
    assert s[|a|] == c;
  }

  lemma LastIndexOfConcat(a: string, c: char, b: string)
    requires c !in b
    ensures LastIndexOf(a + [c] + b, c) == |a|
  {
    var s := a + [c] + b;
    assert s[|a|] == c;
  }

  // ---------------------------------------------------------------------------
  // Splitting and joining on one separator character

  /** `s.split(c)`: the pieces between occurrences of `c`; always at least one. */
  function Split(s: string, c: char): (parts: seq<string>)
    ensures |parts| >= 1
    ensures forall k :: 0 <= k < |parts| ==> c !in parts[k]
    decreases |s|
  {
    var i := IndexOf(s, c);
    if i == |s| then [s] else [s[..i]] + Split(s[i + 1..], c)
  }

  /** `c.join(parts)`. */
  function Join(parts: seq<string>, c: char): string
  {
    if |parts| == 0 then ""
    else if |parts| == 1 then parts[0]
    else parts[0] + [c] + Join(parts[1..], c)
  }

  /** Joining a piece in front of at least one more puts a separator between them. */
  lemma JoinCons(a: string, tail: seq<string>, c: char)
    requires |tail| >= 1
    ensures Join([a] + tail, c) == a + [c] + Join(tail, c)
  {
    var p := [a] + tail;
    assert p[0] == a && p[1..] == tail;
  }

  /** Splitting at a first separator: the text before it is the first piece. */
  lemma SplitCons(a: string, c: char, b: string)
    requires c !in a
    ensures Split(a + [c] + b, c) == [a] + Split(b, c)
  {
    var s := a + [c] + b;
    IndexOfConcat(a, c, b);
    assert s[..|a|] == a;
    assert s[|a| + 1..] == b;
  }

  /** Joining the pieces of a split gives back the string. */
  lemma {:induction false} JoinSplit(s: string, c: char)
    ensures Join(Split(s, c), c) == s
    decreases |s|
  {
    var i := IndexOf(s, c);
    if i < |s| {
      var rest := s[i + 1..];
      assert s == s[..i] + [c] + rest;
      SplitCons(s[..i], c, rest);
      JoinSplit(rest, c);
      JoinCons(s[..i], Split(rest, c), c);
    }
  }

  /** Splitting a join of separator-free pieces gives back the pieces. */
  lemma {:induction false} SplitJoin(parts: seq<string>, c: char)
    requires |parts| >= 1
    requires forall k :: 0 <= k < |parts| ==> c !in parts[k]
    ensures Split(Join(parts, c), c) == parts
    decreases |parts|
  {
    if |parts| > 1 {
      var rest := Join(parts[1..], c);
      assert Join(parts, c) == parts[0] + [c] + rest;
      SplitCons(parts[0], c, rest);
      SplitJoin(parts[1..], c);
      assert parts == [parts[0]] + parts[1..];
    } else {
      assert IndexOf(parts[0], c) == |parts[0]|;
    }
  }

  /** `s.split(c, 1)`: the text before and after the first `c`, or None when `c` is absent. */
  function SplitFirst(s: string, c: char): (r: Option<(string, string)>)
    ensures r.None? <==> c !in s
    ensures r.Some? ==> s == r.value.0 + [c] + r.value.1 && c !in r.value.0
  {
    var i := IndexOf(s, c);
    if i == |s| then None
    else
      assert s == s[..i] + [c] + s[i + 1..];
      Some((s[..i], s[i + 1..]))
  }

  /** The first `c` after a `c`-free prefix is the one that follows that prefix. */
  lemma SplitFirstConcat(a: string, c: char, b: string)
    requires c !in a
    ensures SplitFirst(a + [c] + b, c) == Some((a, b))
  {
    IndexOfConcat(a, c, b);
    var s := a + [c] + b;
    assert s[..|a|] == a;
    assert s[|a| + 1..] == b;
  }

  /** `s.rsplit(c, 1)` when `c` occurs: the text before and after the last `c`. */
  function SplitLast(s: string, c: char): (r: (string, string))
    requires c in s
    ensures s == r.0 + [c] + r.1 && c !in r.1
  {
    var i := LastIndexOf(s, c);
    assert s == s[..i] + [c] + s[i + 1..];
    (s[..i], s[i + 1..])
  }

  lemma SplitLastConcat(a: string, c: char, b: string)
    requires c !in b
    ensures c in a + [c] + b
    ensures SplitLast(a + [c] + b, c) == (a, b)
  {
    var s := a + [c] + b;
    assert s[|a|] == c;
    LastIndexOfConcat(a, c, b);
    assert s[..|a|] == a;
    assert s[|a| + 1..] == b;
  }

  /** `s.split(".")[-1]`: the text after the last dot, or all of `s`. */
  function LastSegment(s: string, c: char): (r: string)
    ensures c !in r
    ensures c !in s ==> r == s
    ensures c in s ==> s == SplitLast(s, c).0 + [c] + r
  {
    if c in s then
      SplitLast(s, c).1
    else s
  }

  // ---------------------------------------------------------------------------
  // Slices and case

  /** `s[:n]`. */
  function Prefix(s: string, n: nat): (r: string)
    ensures |r| == if |s| < n then |s| else n
    ensures r <= s
  {
    if |s| <= n then s else s[..n]
  }

  /** ASCII `upper()`: a..z become A..Z, everything else is kept. */
  function Upper(s: string): (r: string)
    ensures |r| == |s|
    ensures forall i :: 0 <= i < |s| ==> r[i] == UpperChar(s[i])
  {
    if |s| == 0 then "" else [UpperChar(s[0])] + Upper(s[1..])
  }

  function UpperChar(ch: char): char
  {
    if 'a' <= ch <= 'z' then (ch as int - 32) as char else ch
  }

  // ---------------------------------------------------------------------------
  // Whitespace words, the model of `str.split()` with no argument

  /** The ASCII characters `str.isspace()` accepts. */
  predicate IsSpace(ch: char)
  {
    ch == ' ' || '\t' <= ch <= '\r' || '\U{1c}' <= ch <= '\U{1f}'
  }

  predicate NoSpace(s: string)
  {
    forall i :: 0 <= i < |s| ==> !IsSpace(s[i])
  }

  /** Length of the leading run of non-space characters. */
  function WordEnd(s: string): (n: nat)
    ensures n <= |s|
    ensures NoSpace(s[..n])
    ensures n < |s| ==> IsSpace(s[n])
  {
    if |s| == 0 || IsSpace(s[0]) then 0
    else
      var n := WordEnd(s[1..]);
      assert s[..n + 1] == [s[0]] + s[1..][..n];
      n + 1
  }

  /** `s.split()`: maximal runs of non-space characters, in order. */
  function Words(s: string): (ws: seq<string>)
    ensures forall k :: 0 <= k < |ws| ==> |ws[k]| > 0 && NoSpace(ws[k])
    decreases |s|
  {
    if |s| == 0 then []
    else if IsSpace(s[0]) then Words(s[1..])
    else
      var n := WordEnd(s);
      [s[..n]] + Words(s[n..])
  }

  predicate Blank(s: string)
  {
    forall i :: 0 <= i < |s| ==> IsSpace(s[i])
  }

  /** The blank runs around the words of `s`: before the first, between each two, after the
      last. */
  function Gaps(s: string): (g: seq<string>)
    ensures |g| == |Words(s)| + 1
    decreases |s|
  {
    if |s| == 0 then [""]
    else if IsSpace(s[0]) then
      var g := Gaps(s[1..]);
      [[s[0]] + g[0]] + g[1..]
    else [""] + Gaps(s[WordEnd(s)..])
  }

  /** `gaps[0] + words[0] + gaps[1] + ... + words[n-1] + gaps[n]`. */
  function Interleave(gaps: seq<string>, words: seq<string>): string
    requires |gaps| == |words| + 1
  {
    if |words| == 0 then gaps[0] else gaps[0] + words[0] + Interleave(gaps[1..], words[1..])
  }

  /** `s` is its words laid between blank runs, with at least one blank between two words. */
  ghost predicate LaidOut(s: string)
  {
    var g := Gaps(s);
    && s == Interleave(g, Words(s))
    && (forall k :: 0 <= k < |g| ==> Blank(g[k]))
    && (forall k :: 0 < k < |Words(s)| ==> g[k] != "")
    && (|s| > 0 && IsSpace(s[0]) ==> g[0] != "")
  }

  /** `s` is its words laid between blank runs, with at least one blank between two words:
      together with `Words`' own contract this pins the words down exactly. */
  lemma {:induction false} WordsLayout(s: string)
    ensures var g := Gaps(s);
      && s == Interleave(g, Words(s))
      && (forall k :: 0 <= k < |g| ==> Blank(g[k]))
      && (forall k :: 0 < k < |Words(s)| ==> g[k] != "")
      && (|s| > 0 && IsSpace(s[0]) ==> g[0] != "")
    decreases |s|
  {
    if |s| == 0 {
    } else if IsSpace(s[0]) {
      WordsLayout(s[1..]);
      LayoutBlankStep(s);
    } else {
      WordsLayout(s[WordEnd(s)..]);
      LayoutWordStep(s);
    }
  }

  /** A leading blank joins the first blank run. */
  lemma LayoutBlankStep(s: string)
    requires |s| > 0 && IsSpace(s[0]) && LaidOut(s[1..])
    ensures LaidOut(s)
  {
    var t := s[1..];
    var g', ws := Gaps(t), Words(t);
    var g := Gaps(s);
    assert g[0] == [s[0]] + g'[0] && g[1..] == g'[1..];
    assert Words(s) == ws;
    if |ws| == 0 {
      assert Interleave(g, ws) == g[0];
    } else {
      calc {
        Interleave(g, ws);
        g[0] + ws[0] + Interleave(g[1..], ws[1..]);
        ([s[0]] + g'[0]) + ws[0] + Interleave(g'[1..], ws[1..]);
        { ConcatAssoc3([s[0]], g'[0], ws[0], Interleave(g'[1..], ws[1..])); }
        [s[0]] + (g'[0] + ws[0] + Interleave(g'[1..], ws[1..]));
        [s[0]] + Interleave(g', ws);
      }
    }
    assert s == [s[0]] + t;
    assert forall k :: 1 <= k < |g| ==> g[k] == g'[k];
  }

  /** A leading word is followed by an empty blank run or a non-empty one. */
  lemma LayoutWordStep(s: string)
    requires |s| > 0 && !IsSpace(s[0]) && LaidOut(s[WordEnd(s)..])
    ensures LaidOut(s)
  {
    var n := WordEnd(s);
    var w, t := s[..n], s[n..];
    SplitAt(s, n);
    assert Gaps(s) == [""] + Gaps(t);
    assert Words(s) == [w] + Words(t);
    assert |Words(t)| > 0 ==> |t| > 0;
    ConsWord(w, t, Gaps(t), Words(t));
  }

  lemma SplitAt(s: string, n: nat)
    requires n <= |s|
    ensures s == s[..n] + s[n..]
  {
  }

  lemma ConsWord(w: string, t: string, gt: seq<string>, wt: seq<string>)
    requires |gt| == |wt| + 1 && t == Interleave(gt, wt)
    requires forall k :: 0 <= k < |gt| ==> Blank(gt[k])
    requires forall k :: 0 < k < |wt| ==> gt[k] != ""
    requires |t| > 0 ==> IsSpace(t[0]) && gt[0] != ""
    requires |wt| > 0 ==> |t| > 0
    ensures var g, ws := [""] + gt, [w] + wt;
      && w + t == Interleave(g, ws)
      && (forall k :: 0 <= k < |g| ==> Blank(g[k]))
      && (forall k :: 0 < k < |ws| ==> g[k] != "")
  {
    var g, ws := [""] + gt, [w] + wt;
    assert g[1..] == gt && ws[1..] == wt;
    assert forall k :: 1 <= k < |g| ==> g[k] == gt[k - 1];
  }

  lemma ConcatAssoc3(a: string, b: string, c: string, d: string)
    ensures (a + b) + c + d == a + (b + c + d)
  {
  }

  /** Words joined by single spaces, the way the error screen builds its lines. */
  function Unwords(ws: seq<string>): string
  {
    Join(ws, ' ')
  }

  /** A word as `split()` yields it: non-empty, no white space. */
  predicate IsWord(w: string)
  {
    |w| > 0 && NoSpace(w)
  }

  predicate AllWords(ws: seq<string>)
  {
    forall k :: 0 <= k < |ws| ==> IsWord(ws[k])
  }

  function TrimLeft(s: string): (r: string)
    ensures |r| <= |s|
    decreases |s|
  {
    if |s| > 0 && IsSpace(s[0]) then TrimLeft(s[1..]) else s
  }

  function TrimRight(s: string): (r: string)
    ensures |r| <= |s|
    decreases |s|
  {
    if |s| > 0 && IsSpace(s[|s| - 1]) then TrimRight(s[..|s| - 1]) else s
  }

  /** `s.strip()`: white space removed at both ends. */
  function Strip(s: string): (r: string)
    ensures |r| <= |s|
  {
    TrimRight(TrimLeft(s))
  }

  /** A string starting and ending with a non-space character is its own strip. */
  lemma StripFixed(s: string)
    requires |s| > 0 && !IsSpace(s[0]) && !IsSpace(s[|s| - 1])
    ensures Strip(s) == s
  {
  }

  /** Joined words start and end inside a word. */
  lemma {:induction false} UnwordsEnds(ws: seq<string>)
    requires |ws| > 0 && AllWords(ws)
    ensures var s := Unwords(ws); |s| > 0 && !IsSpace(s[0]) && !IsSpace(s[|s| - 1])
  {
    if |ws| > 1 {
      UnwordsEnds(ws[1..]);
      var rest := Unwords(ws[1..]);
      assert Unwords(ws) == ws[0] + [' '] + rest;
      assert (ws[0] + [' '] + rest)[0] == ws[0][0];
    }
  }

  /** Adding a word at the end of a joined line. */
  lemma {:induction false} UnwordsSnoc(ws: seq<string>, w: string)
    ensures Unwords(ws + [w]) == if ws == [] then w else Unwords(ws) + [' '] + w
  {
    if |ws| == 1 {
      assert ws + [w] == [ws[0], w];
      assert [ws[0], w][1..] == [w];
      assert Unwords(ws) == ws[0] && Unwords([w]) == w;
      assert Unwords([ws[0], w]) == ws[0] + [' '] + Unwords([w]);
    } else if |ws| > 1 {
      UnwordsSnoc(ws[1..], w);
      assert (ws + [w])[1..] == ws[1..] + [w];
    }
  }

  /** `f"{line} {word}".strip()` on a line of joined words is the line with one more word. */
  lemma StripJoin(ws: seq<string>, w: string)
    requires AllWords(ws) && IsWord(w)
    ensures Strip(Unwords(ws) + " " + w) == Unwords(ws + [w])
  {
    UnwordsSnoc(ws, w);
    if ws == [] {
      assert (" " + w)[1..] == w;
      assert TrimLeft(" " + w) == TrimLeft(w) == w;
    } else {
      UnwordsEnds(ws);
      var s := Unwords(ws) + " " + w;
      assert s[0] == Unwords(ws)[0] && s[|s| - 1] == w[|w| - 1];
      StripFixed(s);
    }
  }

  /** A word ends where the first white space after it is. */
  lemma {:induction false} WordEndConcat(a: string, b: string)
    requires NoSpace(a)
    requires |b| == 0 || IsSpace(b[0])
    ensures WordEnd(a + b) == |a|
    decreases |a|
  {
    if |a| > 0 {
      WordEndConcat(a[1..], b);
      assert (a + b)[1..] == a[1..] + b;
    } else {
      assert a + b == b;
    }
  }

  /** Splitting joined words gives the words back. */
  lemma {:induction false} WordsUnwords(ws: seq<string>)
    requires AllWords(ws)
    ensures Words(Unwords(ws)) == ws
  {
    if |ws| == 1 {
      var a := ws[0];
      WordEndConcat(a, "");
      assert a + "" == a;
      assert !IsSpace(a[0]) && Unwords(ws) == a;
      assert Words(a) == [a[..|a|]] + Words(a[|a|..]);
      assert a[..|a|] == a && a[|a|..] == "";
    } else if |ws| > 1 {
      var rest := Unwords(ws[1..]);
      var s := ws[0] + [' '] + rest;
      assert Unwords(ws) == s;
      WordEndConcat(ws[0], [' '] + rest);
      assert s == ws[0] + ([' '] + rest);
      assert s[..|ws[0]|] == ws[0];
      assert s[|ws[0]|..] == [' '] + rest;
      assert ([' '] + rest)[1..] == rest;
      WordsUnwords(ws[1..]);
      assert ws == [ws[0]] + ws[1..];
    }
  }

  // ---------------------------------------------------------------------------
  // Decimal numbers

  predicate IsDigit(ch: char)
  {
    '0' <= ch <= '9'
  }

  predicate AllDigits(s: string)
  {
    forall i :: 0 <= i < |s| ==> IsDigit(s[i])
  }

  function DigitValue(ch: char): nat
    requires IsDigit(ch)
  {
    ch as int - '0' as int
  }

  function DigitChar(d: nat): (ch: char)
    requires d < 10
    ensures IsDigit(ch) && DigitValue(ch) == d
  {
    ('0' as int + d) as char
  }

  /** The value of a string of decimal digits. */
  function DigitsValue(s: string): nat
    requires AllDigits(s)
  {
    if |s| == 0 then 0
    else 10 * DigitsValue(s[..|s| - 1]) + DigitValue(s[|s| - 1])
  }

  /** `int(s)` restricted to non-empty ASCII digit strings; None where `int` raises. */
  function ParseNat(s: string): (r: Option<nat>)
    ensures r.Some? <==> |s| > 0 && AllDigits(s)
  {
    if |s| > 0 && AllDigits(s) then Some(DigitsValue(s)) else None
  }

  /** `str(n)` for a natural number. */
  function NatToString(n: nat): (s: string)
    ensures |s| > 0 && AllDigits(s)
  {
    if n < 10 then [DigitChar(n)] else NatToString(n / 10) + [DigitChar(n % 10)]
  }

  /** `str(n)` for any integer. */
  function IntToString(n: int): string
  {
    if n < 0 then "-" + NatToString(-n) else NatToString(n)
  }

  /** Reading back the decimal text of a number gives the number. */
  lemma {:induction false} ParseNatToString(n: nat)
    ensures ParseNat(NatToString(n)) == Some(n)
  {
    DigitsValueToString(n);
  }

  lemma {:induction false} DigitsValueToString(n: nat)
    ensures DigitsValue(NatToString(n)) == n
  {
    if n >= 10 {
      var s := NatToString(n);
      DigitsValueToString(n / 10);
      assert s[..|s| - 1] == NatToString(n / 10);
    }
  }

  predicate IsAscii(s: string)
  {
    forall i :: 0 <= i < |s| ==> s[i] < '\U{80}'
  }
}
