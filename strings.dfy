/** The handful of Python `str` operations the modelled code relies on,
    written out on `seq<char>`. */
module Strings {

  /** Python's `s.startswith(prefix)`. */
  predicate StartsWith(s: string, prefix: string) {
    |prefix| <= |s| && s[..|prefix|] == prefix
  }

  /** Python's `sub in s`: some suffix of `s` starts with `sub`. */
  predicate Contains(s: string, sub: string)
    decreases |s|
  {
    StartsWith(s, sub) || (|s| > 0 && Contains(s[1..], sub))
  }

  /** Whenever `s` holds `sub`, it holds every prefix of `sub` as well. */
  lemma {:induction false} ContainsPrefixOf(s: string, sub: string, pre: string)
    requires Contains(s, sub) && StartsWith(sub, pre)
    ensures Contains(s, pre)
    decreases |s|
  {
    if StartsWith(s, sub) {
      assert s[..|pre|] == sub[..|pre|];
    } else {
      ContainsPrefixOf(s[1..], sub, pre);
    }
  }

  /** `str.lower()` on the ASCII letters; every other character is kept. */
  function LowerChar(c: char): char {
    if 'A' <= c <= 'Z' then (c as int + 32) as char else c
  }

  function Lower(s: string): string {
    seq(|s|, i requires 0 <= i < |s| => LowerChar(s[i]))
  }

  /** Python's `s[:n]` for `n >= 0`. */
  function Take<T>(xs: seq<T>, n: nat): (r: seq<T>)
    ensures |r| == if n <= |xs| then n else |xs|
    ensures r == xs[..|r|]
  {
    if n <= |xs| then xs[..n] else xs
  }

  /** Position of the first `c` in `s`, or `|s|` when `s` holds none. */
  function IndexOf(s: string, c: char): (i: nat)
    ensures i <= |s|
    ensures i < |s| ==> s[i] == c
    ensures forall j :: 0 <= j < i ==> s[j] != c
  {
    if |s| == 0 then 0 else if s[0] == c then 0 else 1 + IndexOf(s[1..], c)
  }

  /** Python's `s.split(c)` for a one-character separator: never empty, and
      no piece holds the separator. */
  function Split(s: string, c: char): (parts: seq<string>)
    ensures |parts| > 0
    ensures forall k :: 0 <= k < |parts| ==> c !in parts[k]
    decreases |s|
  {
    var i := IndexOf(s, c);
    assert c !in s[..i];
    if i == |s| then [s] else [s[..i]] + Split(s[i + 1..], c)
  }

  /** Python's `sep.join(parts)`. */
  function Join(sep: string, parts: seq<string>): string {
    if |parts| == 0 then ""
    else if |parts| == 1 then parts[0]
    else parts[0] + sep + Join(sep, parts[1..])
  }

  /** Joining the pieces of a split gives back the string. */
  lemma {:induction false} JoinSplit(s: string, c: char)
    ensures Join([c], Split(s, c)) == s
    decreases |s|
  {
    var i := IndexOf(s, c);
    if i < |s| {
      var rest := s[i + 1..];
      JoinSplit(rest, c);
      assert Split(s, c) == [s[..i]] + Split(rest, c);
      assert s == s[..i] + [c] + rest;
    }
  }

  /** Splitting a join of separator-free pieces gives back the pieces. */
  lemma {:induction false} SplitJoin(parts: seq<string>, c: char)
    requires |parts| > 0
    requires forall k :: 0 <= k < |parts| ==> c !in parts[k]
    ensures Split(Join([c], parts), c) == parts
  {
    var s := Join([c], parts);
    if |parts| == 1 {
      assert IndexOf(s, c) == |s|;
    } else {
      var rest := Join([c], parts[1..]);
      assert s == parts[0] + [c] + rest;
      assert s[|parts[0]|] == c;
      assert forall j :: 0 <= j < |parts[0]| ==> s[j] == parts[0][j];
      assert IndexOf(s, c) == |parts[0]|;
      assert s[..|parts[0]|] == parts[0];
      assert s[|parts[0]| + 1..] == rest;
      SplitJoin(parts[1..], c);
    }
  }

  /** The join is empty exactly when there is nothing to join, or a single
      empty piece. */
  lemma JoinIsEmpty(sep: string, parts: seq<string>)
    requires sep != ""
    ensures Join(sep, parts) == "" <==> |parts| == 0 || (|parts| == 1 && parts[0] == "")
  {
    if |parts| > 1 {
      assert |Join(sep, parts)| >= |sep|;
    }
  }

  /** The join of non-empty pieces starts with the first piece's first character. */
  lemma JoinHead(sep: string, parts: seq<string>)
    requires |parts| > 0 && parts[0] != ""
    ensures Join(sep, parts) != "" && Join(sep, parts)[0] == parts[0][0]
  {
  }

  /** How many copies of `c` open `s`. */
  function Leading(s: string, c: char): (n: nat)
    ensures n <= |s|
    ensures forall k :: 0 <= k < n ==> s[k] == c
    ensures n < |s| ==> s[n] != c
  {
    if |s| > 0 && s[0] == c then 1 + Leading(s[1..], c) else 0
  }

  /** How many copies of `c` close `s`. */
  function Trailing(s: string, c: char): (n: nat)
    ensures n <= |s|
    ensures forall k :: |s| - n <= k < |s| ==> s[k] == c
    ensures n < |s| ==> s[|s| - n - 1] != c
  {
    if |s| > 0 && s[|s| - 1] == c then 1 + Trailing(s[..|s| - 1], c) else 0
  }

  /** `r` is `s` with `lo` copies of `c` cut from its front and only copies
      of `c` cut from its back. */
  predicate CutAround(s: string, c: char, lo: nat, r: string) {
    && lo + |r| <= |s|
    && r == s[lo..lo + |r|]
    && (forall k :: 0 <= k < lo ==> s[k] == c)
    && (forall k :: lo + |r| <= k < |s| ==> s[k] == c)
  }

  /** Python's `s.strip(c)`: the result neither starts nor ends with `c`, and
      it is what is left of `s` once the runs of `c` at both ends are cut off. */
  function Strip(s: string, c: char): (r: string)
    ensures |r| > 0 ==> r[0] != c && r[|r| - 1] != c
    ensures exists lo: nat :: CutAround(s, c, lo, r)
  {
    var lo := Leading(s, c);
    if lo == |s| then
      assert CutAround(s, c, lo, "");
      ""
    else
      var hi := |s| - Trailing(s, c);
      assert lo < hi;
      assert CutAround(s, c, lo, s[lo..hi]);
      s[lo..hi]
  }

  /** Python's `str.isspace()` for one character. */
  predicate IsSpace(ch: char) {
    || '\t' <= ch <= '\r'
    || '\U{1c}' <= ch <= ' '
    || ch == '\U{85}' || ch == '\U{a0}' || ch == '\U{1680}'
    || '\U{2000}' <= ch <= '\U{200a}'
    || ch == '\U{2028}' || ch == '\U{2029}' || ch == '\U{202f}' || ch == '\U{205f}'
    || ch == '\U{3000}'
  }

  /** Python's `s.lstrip()`. */
  function DropSpaces(s: string): (r: string)
    ensures |r| <= |s| && r == s[|s| - |r|..]
    ensures forall k :: 0 <= k < |s| - |r| ==> IsSpace(s[k])
    ensures |r| > 0 ==> !IsSpace(r[0])
  {
    if |s| > 0 && IsSpace(s[0]) then DropSpaces(s[1..]) else s
  }

  /** Position of the first space in `s`, or `|s|` when it has none. */
  function WordEnd(s: string): (i: nat)
    ensures i <= |s|
    ensures i < |s| ==> IsSpace(s[i])
    ensures forall k :: 0 <= k < i ==> !IsSpace(s[k])
  {
    if |s| == 0 || IsSpace(s[0]) then 0 else 1 + WordEnd(s[1..])
  }

  /** A token of `str.split()`: non-empty and free of spaces. */
  predicate IsWord(t: string) {
    t != "" && forall j :: 0 <= j < |t| ==> !IsSpace(t[j])
  }

  /** Python's `s.split()` with no argument: the maximal runs of non-space
      characters of `s`, in order. */
  function Tokenize(s: string): (ts: seq<string>)
    ensures forall k :: 0 <= k < |ts| ==> IsWord(ts[k])
    decreases |s|, 1
  {
    Words(DropSpaces(s))
  }

  /** The tokens of a text that does not start with a space. */
  function Words(t: string): (ts: seq<string>)
    requires t == "" || !IsSpace(t[0])
    ensures forall k :: 0 <= k < |ts| ==> IsWord(ts[k])
    decreases |t|, 0
  {
    if t == "" then []
    else
      var i := WordEnd(t);
      [t[..i]] + Tokenize(t[i..])
  }

  /** A word ends where the text after it starts with a space, or at its end. */
  lemma {:induction false} WordEndAfter(w: string, rest: string)
    requires forall j :: 0 <= j < |w| ==> !IsSpace(w[j])
    requires rest == "" || IsSpace(rest[0])
    ensures WordEnd(w + rest) == |w|
  {
    if |w| > 0 {
      assert (w + rest)[1..] == w[1..] + rest;
      WordEndAfter(w[1..], rest);
    } else {
      assert w + rest == rest;
    }
  }

  /** A leading word is the first token. */
  lemma TokenizeWord(w: string, rest: string)
    requires IsWord(w)
    requires rest == "" || IsSpace(rest[0])
    ensures Tokenize(w + rest) == [w] + Tokenize(rest)
  {
    var s := w + rest;
    assert s[0] == w[0];
    assert DropSpaces(s) == s;
    WordEndAfter(w, rest);
    assert s[..|w|] == w && s[|w|..] == rest;
  }

  /** Text made of spaces only, possibly none. */
  predicate Blank(g: string) {
    forall j :: 0 <= j < |g| ==> IsSpace(g[j])
  }

  /** Leading spaces are skipped. */
  lemma {:induction false} TokenizeBlank(g: string, rest: string)
    requires Blank(g)
    ensures Tokenize(g + rest) == Tokenize(rest)
  {
    if |g| > 0 {
      var s := g + rest;
      assert IsSpace(s[0]) && s[1..] == g[1..] + rest;
      assert DropSpaces(s) == DropSpaces(g[1..] + rest);
      var s' := g[1..] + rest;
      assert Tokenize(s) == Words(DropSpaces(s'));
      assert Tokenize(s') == Words(DropSpaces(s'));
      TokenizeBlank(g[1..], rest);
    } else {
      assert g + rest == rest;
    }
  }

  /** The words `ts` laid out with the runs of spaces `gaps` around and
      between them: `gaps[0] + ts[0] + gaps[1] + ... + ts[n-1] + gaps[n]`. */
  function Layout(ts: seq<string>, gaps: seq<string>): string
    requires |gaps| == |ts| + 1
    decreases |ts|
  {
    if |ts| == 0 then gaps[0] else gaps[0] + ts[0] + Layout(ts[1..], gaps[1..])
  }

  /** The shape of a layout that splits into its words: runs of spaces
      everywhere, and at least one space between two words. */
  predicate Spacing(ts: seq<string>, gaps: seq<string>) {
    && |gaps| == |ts| + 1
    && (forall k :: 0 <= k < |ts| ==> IsWord(ts[k]))
    && (forall k :: 0 <= k < |gaps| ==> Blank(gaps[k]))
    && (forall k :: 0 < k < |ts| ==> gaps[k] != "")
  }

  /** Dropping the first word and the run before it keeps the shape. */
  lemma SpacingTail(ts: seq<string>, gaps: seq<string>)
    requires Spacing(ts, gaps) && |ts| > 0
    ensures Spacing(ts[1..], gaps[1..])
    ensures Blank(gaps[0]) && IsWord(ts[0])
    ensures |ts| > 1 ==> gaps[1] != ""
  {
  }

  /** A layout whose first run is non-empty when a word follows it is empty
      or starts with a space. */
  lemma LayoutStart(ts: seq<string>, gaps: seq<string>)
    requires Spacing(ts, gaps)
    requires |ts| > 0 ==> gaps[0] != ""
    ensures Layout(ts, gaps) == "" || IsSpace(Layout(ts, gaps)[0])
  {
    if |ts| > 0 {
      assert Layout(ts, gaps) == gaps[0] + (ts[0] + Layout(ts[1..], gaps[1..]));
    }
  }

  /** Words separated by any non-empty runs of whitespace, with any leading
      and trailing whitespace, split back into exactly those words. */
  lemma {:induction false} TokenizeLayout(ts: seq<string>, gaps: seq<string>)
    requires Spacing(ts, gaps)
    ensures Tokenize(Layout(ts, gaps)) == ts
  {
    if |ts| == 0 {
      assert gaps[0] + "" == gaps[0];
      TokenizeBlank(gaps[0], "");
      assert Tokenize("") == [];
    } else {
      SpacingTail(ts, gaps);
      var rest := Layout(ts[1..], gaps[1..]);
      LayoutStart(ts[1..], gaps[1..]);
      assert Layout(ts, gaps) == gaps[0] + (ts[0] + rest);
      TokenizeBlank(gaps[0], ts[0] + rest);
      TokenizeWord(ts[0], rest);
      TokenizeLayout(ts[1..], gaps[1..]);
    }
  }

  /** A word and a run of spaces in front of a layout make a layout. */
  lemma SpacingCons(g: string, w: string, ts: seq<string>, gaps: seq<string>)
    requires Blank(g) && IsWord(w) && Spacing(ts, gaps)
    requires |ts| > 0 ==> gaps[0] != ""
    ensures Spacing([w] + ts, [g] + gaps)
    ensures Layout([w] + ts, [g] + gaps) == g + (w + Layout(ts, gaps))
  {
    var ts', gaps' := [w] + ts, [g] + gaps;
    assert ts'[1..] == ts && gaps'[1..] == gaps;
    assert forall k :: 0 < k < |gaps'| ==> gaps'[k] == gaps[k - 1];
    assert forall k :: 0 < k < |ts'| ==> ts'[k] == ts[k - 1];
  }

  /** The spaces `lstrip` removes. */
  lemma BlankPrefix(s: string) returns (g: string)
    ensures s == g + DropSpaces(s) && Blank(g)
    ensures |s| > 0 && IsSpace(s[0]) ==> g != ""
  {
    var n := |s| - |DropSpaces(s)|;
    g := s[..n];
    assert s == s[..n] + s[n..];
  }

  /** A text that starts with a word is that word and the rest, which is
      empty or starts with a space. */
  lemma FirstWord(t: string) returns (w: string, rest: string)
    requires t != "" && !IsSpace(t[0])
    ensures t == w + rest && IsWord(w) && (rest == "" || IsSpace(rest[0]))
    ensures Words(t) == [w] + Tokenize(rest)
  {
    var i := WordEnd(t);
    w, rest := t[..i], t[i..];
    assert t == w + rest;
  }

  /** A text with a word in it is leading spaces, its first token, and the
      rest. */
  lemma LeadingWord(s: string) returns (g: string, w: string, rest: string)
    requires DropSpaces(s) != ""
    ensures s == g + (w + rest) && |rest| < |s|
    ensures Blank(g) && IsWord(w) && (rest == "" || IsSpace(rest[0]))
    ensures IsSpace(s[0]) ==> g != ""
    ensures Tokenize(s) == [w] + Tokenize(rest)
  {
    g := BlankPrefix(s);
    w, rest := FirstWord(DropSpaces(s));
  }

  /** Conversely, every text is its tokens laid out with such runs of
      whitespace, so the tokens are exactly its maximal non-space runs. */
  lemma {:induction false} LayoutOfTokens(s: string) returns (gaps: seq<string>)
    ensures Spacing(Tokenize(s), gaps)
    ensures Layout(Tokenize(s), gaps) == s
    ensures |s| > 0 && IsSpace(s[0]) ==> gaps[0] != ""
    decreases |s|
  {
    if DropSpaces(s) == "" {
      gaps := [s];
      assert Blank(s);
      assert Tokenize(s) == [];
    } else {
      var g, w, rest := LeadingWord(s);
      var gaps' := LayoutOfTokens(rest);
      assert |Tokenize(rest)| > 0 ==> rest != "" by {
        if rest == "" { assert Tokenize(rest) == []; }
      }
      SpacingCons(g, w, Tokenize(rest), gaps');
      gaps := [g] + gaps';
    }
  }

  /** Splitting words joined by single blanks gives back the words. */
  lemma {:induction false} TokenizeJoin(ts: seq<string>)
    requires forall k :: 0 <= k < |ts| ==> IsWord(ts[k])
    ensures Tokenize(Join(" ", ts)) == ts
  {
    if |ts| == 1 {
      assert Join(" ", ts) == ts[0] + "";
      TokenizeWord(ts[0], "");
      assert Tokenize("") == [];
    } else if |ts| > 1 {
      var rest := Join(" ", ts[1..]);
      assert Join(" ", ts) == ts[0] + " " + rest;
      assert ts[0] + " " + rest == ts[0] + (" " + rest);
      calc {
        Tokenize(Join(" ", ts));
        Tokenize(ts[0] + (" " + rest));
        { TokenizeWord(ts[0], " " + rest); }
        [ts[0]] + Tokenize(" " + rest);
        { TokenizeBlank(" ", rest); }
        [ts[0]] + Tokenize(rest);
        { TokenizeJoin(ts[1..]); }
        [ts[0]] + ts[1..];
        ts;
      }
    }
  }
}
