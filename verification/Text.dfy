/** C strings, bounded copies, tokens and the timestamp shape. */
module Text {
  const NUL := '\0'

  /** The text `safe_strncpy` leaves in a buffer of `size` bytes. */
  function Cut(s: string, size: nat): (r: string)
    requires size > 0
    ensures r <= s && |r| < size
    ensures r == s <==> |s| < size
  {
    if |s| < size then s else s[..size - 1]
  }

  /** The C string that starts at byte `p` of a buffer. */
  function CStringAt(b: seq<char>, p: nat): (r: string)
    requires p <= |b|
    ensures p + |r| <= |b|
    ensures forall i :: 0 <= i < |r| ==> r[i] == b[p + i] && r[i] != NUL
    ensures p + |r| < |b| ==> b[p + |r|] == NUL
    decreases |b| - p
  {
    if p == |b| || b[p] == NUL then ""
    else [b[p]] + CStringAt(b, p + 1)
  }

  /** A NUL terminates the C string that starts at `p`. */
  ghost predicate NulAfter(b: seq<char>, p: nat) {
    p <= |b| && p + |CStringAt(b, p)| < |b|
  }

  lemma {:induction false} CStringIs(b: seq<char>, p: nat, e: nat)
    requires p <= e <= |b|
    requires forall i :: p <= i < e ==> b[i] != NUL
    requires e < |b| ==> b[e] == NUL
    ensures CStringAt(b, p) == b[p..e]
    decreases e - p
  {
    if p < e {
      CStringIs(b, p + 1, e);
    }
  }

  /** `safe_strncpy`: the destination then holds the cut source. */
  method SafeStrncpy(dest: array<char>, src: string)
    requires dest.Length > 0 && NUL !in src
    modifies dest
    ensures CStringAt(dest[..], 0) == Cut(src, dest.Length)
  {
    var i := 0;
    while i < dest.Length - 1 && i < |src|
      invariant 0 <= i <= dest.Length - 1 && i <= |src|
      invariant dest[..i] == src[..i]
    {
      dest[i] := src[i];
      i := i + 1;
    }
    ghost var copied := i;
    while i < dest.Length - 1
      invariant copied <= i <= dest.Length - 1
      invariant dest[..copied] == src[..copied]
      invariant forall k :: copied <= k < i ==> dest[k] == NUL
    {
      dest[i] := NUL;
      i := i + 1;
    }
    dest[dest.Length - 1] := NUL;
    assert dest[..][0..copied] == dest[..copied] == src[..copied];
    CStringIs(dest[..], 0, copied);
  }

  // Tokens

  predicate IsDelim(c: char) {
    c == ' ' || c == '\t'
  }

  function SkipDelims(s: string): (r: string)
    ensures |r| <= |s|
    ensures r != "" ==> !IsDelim(r[0])
  {
    if s != "" && IsDelim(s[0]) then SkipDelims(s[1..]) else s
  }

  function WordLen(s: string): (n: nat)
    ensures n <= |s|
    ensures forall i :: 0 <= i < n ==> !IsDelim(s[i])
    ensures n < |s| ==> IsDelim(s[n])
  {
    if s != "" && !IsDelim(s[0]) then 1 + WordLen(s[1..]) else 0
  }

  function AfterWord(s: string): string {
    var n := WordLen(s);
    if n == |s| then "" else s[n + 1..]
  }

  /** The first `max` maximal delimiter-free runs of `s`. */
  function TokensUpTo(s: string, max: nat): (ts: seq<string>)
    ensures |ts| <= max
    decreases max
  {
    var r := SkipDelims(s);
    if max == 0 || r == "" then []
    else [r[..WordLen(r)]] + TokensUpTo(AfterWord(r), max - 1)
  }

  function Tokens(s: string): seq<string> {
    TokensUpTo(s, 8)
  }

  /** A token as the wire can carry it. */
  ghost predicate Word(w: string) {
    w != "" && forall i :: 0 <= i < |w| ==> !IsDelim(w[i]) && w[i] != '\r' && w[i] != '\n' && w[i] != NUL
  }

  /** A non-empty line without bytes that framing or C strings treat specially. */
  ghost predicate Clean(s: string) {
    s != "" && forall i :: 0 <= i < |s| ==> s[i] != '\r' && s[i] != '\n' && s[i] != NUL
  }

  function Join(ws: seq<string>): string {
    if ws == [] then ""
    else if |ws| == 1 then ws[0] else ws[0] + " " + Join(ws[1..])
  }

  lemma {:induction false} WordLenIs(s: string, n: nat)
    requires n <= |s| && (n < |s| ==> IsDelim(s[n]))
    requires forall i :: 0 <= i < n ==> !IsDelim(s[i])
    ensures WordLen(s) == n
    decreases n
  {
    if n > 0 {
      WordLenIs(s[1..], n - 1);
    }
  }

  lemma FirstToken(w: string, t: string, max: nat)
    requires Word(w) && (t != "" ==> IsDelim(t[0])) && max > 0
    ensures TokensUpTo(w + t, max) == [w] + TokensUpTo(if t == "" then "" else t[1..], max - 1)
  {
    var s := w + t;
    WordLenIs(s, |w|);
    assert SkipDelims(s) == s && s[..|w|] == w;
    assert AfterWord(s) == if t == "" then "" else t[1..];
  }

  /** Splitting what a client joined gives the words back. */
  lemma {:induction false} TokensOfJoin(ws: seq<string>, max: nat)
    requires 0 < |ws| <= max
    requires forall k :: 0 <= k < |ws| ==> Word(ws[k])
    ensures TokensUpTo(Join(ws), max) == ws
    decreases |ws|
  {
    hide TokensUpTo;
    var w := ws[0];
    assert Word(w);
    if |ws| == 1 {
      LastJoined(w, max);
      assert ws == [w];
    } else {
      NextJoined(w, Join(ws[1..]), max);
      TokensOfJoin(ws[1..], max - 1);
      assert ws == [w] + ws[1..];
    }
  }

  lemma LastJoined(w: string, max: nat)
    requires Word(w) && max > 0
    ensures TokensUpTo(w, max) == [w]
  {
    FirstToken(w, "", max);
    assert w + "" == w;
  }

  lemma NextJoined(w: string, rest: string, max: nat)
    requires Word(w) && max > 0
    ensures TokensUpTo(w + " " + rest, max) == [w] + TokensUpTo(rest, max - 1)
  {
    FirstToken(w, " " + rest, max);
    assert w + (" " + rest) == w + " " + rest && (" " + rest)[1..] == rest;
  }

  lemma JoinCons(w: string, ws: seq<string>)
    requires ws != []
    ensures Join([w] + ws) == w + " " + Join(ws)
  {
    assert ([w] + ws)[1..] == ws;
  }

  lemma JoinWords(a: string, b: string, c: string, d: string)
    ensures Join([a, b]) == a + " " + b
    ensures Join([a, b, c]) == a + " " + b + " " + c
    ensures Join([a, b, c, d]) == a + " " + b + " " + c + " " + d
  {
    hide Join;
    assert Join([d]) == d && Join([c]) == c && Join([b]) == b by { JoinOne(d); JoinOne(c); JoinOne(b); }
    JoinCons(a, [b]);
    JoinCons(b, [c]);
    JoinCons(c, [d]);
    JoinCons(a, [b, c]);
    JoinCons(b, [c, d]);
    JoinCons(a, [b, c, d]);
    assert [a] + [b] == [a, b] && [b] + [c] == [b, c] && [c] + [d] == [c, d];
    assert [a] + [b, c] == [a, b, c] && [b] + [c, d] == [b, c, d] && [a] + [b, c, d] == [a, b, c, d];
  }

  lemma JoinOne(w: string)
    ensures Join([w]) == w
  {
  }

  lemma {:induction false} JoinClean(ws: seq<string>)
    requires ws != []
    requires forall k :: 0 <= k < |ws| ==> Word(ws[k])
    ensures Clean(Join(ws))
    decreases |ws|
  {
    assert Word(ws[0]);
    if |ws| > 1 {
      JoinClean(ws[1..]);
      CleanAppend(ws[0], Join(ws[1..]));
    }
  }

  lemma CleanAppend(w: string, rest: string)
    requires Word(w) && Clean(rest)
    ensures Clean(w + " " + rest)
  {
    var s := w + " " + rest;
    assert forall i :: |w| < i < |s| ==> s[i] == rest[i - |w| - 1];
  }

  // What tokens are, in terms of blanks and tabs

  ghost predicate Blank(g: string) {
    forall i :: 0 <= i < |g| ==> g[i] == ' ' || g[i] == '\t'
  }

  ghost predicate Inked(w: string) {
    w != "" && forall i :: 0 <= i < |w| ==> w[i] != ' ' && w[i] != '\t'
  }

  /** Words with a gap before each and one after the last. */
  function Laid(gaps: seq<string>, words: seq<string>): string
    requires |gaps| == |words| + 1
    decreases |words|
  {
    if words == [] then gaps[0] else gaps[0] + words[0] + Laid(gaps[1..], words[1..])
  }

  /** Gaps of blanks and tabs, with something between any two words. */
  ghost predicate Gaps(gaps: seq<string>) {
    (forall k :: 0 <= k < |gaps| ==> Blank(gaps[k])) && forall k :: 0 < k < |gaps| - 1 ==> gaps[k] != ""
  }

  lemma {:induction false} SkipGap(g: string, rest: string)
    requires Blank(g)
    ensures SkipDelims(g + rest) == SkipDelims(rest)
    decreases |g|
  {
    if g == "" {
      assert g + rest == rest;
    } else {
      assert (g + rest)[1..] == g[1..] + rest;
      SkipGap(g[1..], rest);
    }
  }

  lemma GapThenWord(g: string, w: string, rest: string, max: nat)
    requires Blank(g) && Inked(w) && max > 0
    requires rest != "" ==> rest[0] == ' ' || rest[0] == '\t'
    ensures TokensUpTo(g + w + rest, max) == [w] + TokensUpTo(rest, max - 1)
  {
    var r := w + rest;
    assert g + w + rest == g + r;
    SkipGap(g, r);
    assert SkipDelims(r) == r by { assert r[0] == w[0]; }
    WordLenIs(r, |w|);
    assert r[..|w|] == w;
    AfterGap(rest, max - 1);
    assert AfterWord(r) == if rest == "" then "" else rest[1..];
    hide SkipDelims, WordLen;
  }

  /** The delimiter right after a word makes no difference. */
  lemma AfterGap(rest: string, max: nat)
    requires rest != "" ==> rest[0] == ' ' || rest[0] == '\t'
    ensures TokensUpTo(rest, max) == TokensUpTo(if rest == "" then "" else rest[1..], max)
  {
    if rest != "" {
      assert SkipDelims(rest) == SkipDelims(rest[1..]);
    }
  }

  lemma GapsAfter(gaps: seq<string>)
    requires |gaps| > 1 && Gaps(gaps)
    ensures Gaps(gaps[1..]) && (|gaps| > 2 ==> gaps[1] != "")
  {
    hide Blank;
  }

  lemma LaidStarts(gaps: seq<string>, words: seq<string>)
    requires |gaps| == |words| + 1 && Blank(gaps[0]) && (words != [] ==> gaps[0] != "")
    ensures var s := Laid(gaps, words); s != "" ==> s[0] == ' ' || s[0] == '\t'
  {
  }

  /** Words laid out with any gaps of blanks and tabs are what tokenizing gives back, up to the limit. */
  lemma {:induction false} TokensOfLaid(gaps: seq<string>, words: seq<string>, max: nat)
    requires |gaps| == |words| + 1 && Gaps(gaps) && forall k :: 0 <= k < |words| ==> Inked(words[k])
    ensures TokensUpTo(Laid(gaps, words), max) == words[..if |words| < max then |words| else max]
    decreases |words|
  {
    hide TokensUpTo, Blank, Inked;
    TokensOfGap(Laid(gaps, words), gaps[0], max);
    if words != [] && max > 0 {
      GapsAfter(gaps);
      LaidStarts(gaps[1..], words[1..]);
      GapThenWord(gaps[0], words[0], Laid(gaps[1..], words[1..]), max);
      TokensOfLaid(gaps[1..], words[1..], max - 1);
      hide Laid;
      var n := if |words| < max then |words| else max;
      assert words[..n] == [words[0]] + words[1..][..n - 1];
    }
  }

  lemma TokensOfGap(s: string, g: string, max: nat)
    requires Blank(g)
    ensures s == g || max == 0 ==> TokensUpTo(s, max) == []
  {
    SkipGap(g, "");
    assert g + "" == g && SkipDelims("") == "";
  }

  /** And every text is words laid out so. */
  lemma {:induction false} EveryTextIsLaid(s: string) returns (gaps: seq<string>, words: seq<string>)
    ensures |gaps| == |words| + 1 && Gaps(gaps) && (forall k :: 0 <= k < |words| ==> Inked(words[k]))
    ensures Laid(gaps, words) == s
    decreases |s|
  {
    if s == "" {
      gaps, words := [""], [];
    } else {
      var g, w := EveryTextIsLaid(s[1..]);
      assert s == [s[0]] + s[1..];
      if s[0] == ' ' || s[0] == '\t' {
        gaps, words := g[0 := [s[0]] + g[0]], w;
      } else if w != [] && g[0] == "" {
        gaps, words := g, w[0 := [s[0]] + w[0]];
      } else {
        gaps, words := [""] + g, [[s[0]]] + w;
      }
    }
  }

  function RemoveDelims(s: string): string {
    if s == "" then ""
    else (if IsDelim(s[0]) then "" else [s[0]]) + RemoveDelims(s[1..])
  }

  function Concat(ts: seq<string>): string {
    if ts == [] then "" else ts[0] + Concat(ts[1..])
  }

  lemma ConcatCons(t: string, ts: seq<string>)
    ensures Concat([t] + ts) == t + Concat(ts)
  {
    assert ([t] + ts)[1..] == ts;
  }

  lemma Assoc(a: string, b: string, c: string)
    ensures (a + b) + c == a + (b + c)
  {
  }

  lemma {:induction false} RemoveDelimsSplit(a: string, b: string)
    ensures RemoveDelims(a + b) == RemoveDelims(a) + RemoveDelims(b)
    decreases |a|
  {
    if a == "" {
      assert a + b == b;
    } else {
      hide IsDelim;
      RemoveDelimsSplit(a[1..], b);
      assert (a + b)[1..] == a[1..] + b;
      Assoc(if IsDelim(a[0]) then "" else [a[0]], RemoveDelims(a[1..]), RemoveDelims(b));
    }
  }

  lemma {:induction false} RemoveDelimsNone(a: string)
    requires forall i :: 0 <= i < |a| ==> !IsDelim(a[i])
    ensures RemoveDelims(a) == a
    decreases |a|
  {
    if a != "" {
      RemoveDelimsNone(a[1..]);
    }
  }

  lemma {:induction false} RemoveDelimsSkip(s: string)
    ensures RemoveDelims(s) == RemoveDelims(SkipDelims(s))
    decreases |s|
  {
    if s != "" && IsDelim(s[0]) {
      RemoveDelimsSkip(s[1..]);
    }
  }

  lemma RemoveDelimsPrefix(r: string, n: nat)
    requires n <= |r| && forall i :: 0 <= i < n ==> !IsDelim(r[i])
    ensures RemoveDelims(r) == r[..n] + RemoveDelims(r[n..])
  {
    hide RemoveDelims;
    assert r == r[..n] + r[n..];
    RemoveDelimsSplit(r[..n], r[n..]);
    RemoveDelimsNone(r[..n]);
  }

  lemma RemoveDelim(r: string, n: nat)
    requires n < |r| && IsDelim(r[n])
    ensures RemoveDelims(r[n..]) == RemoveDelims(r[n + 1..])
  {
    assert r[n..][1..] == r[n + 1..];
  }

  lemma RemoveDelimsWord(r: string)
    ensures RemoveDelims(r) == r[..WordLen(r)] + RemoveDelims(AfterWord(r))
  {
    hide RemoveDelims, WordLen;
    RemoveDelimsPrefix(r, WordLen(r));
    if WordLen(r) < |r| {
      RemoveDelim(r, WordLen(r));
    } else {
      assert r[WordLen(r)..] == "";
    }
  }

  /** Nothing but delimiters is lost, unless the token array is full. */
  lemma {:induction false} TokensKeepText(s: string, max: nat)
    ensures |TokensUpTo(s, max)| < max ==> Concat(TokensUpTo(s, max)) == RemoveDelims(s)
    decreases max
  {
    hide RemoveDelims, SkipDelims, WordLen, AfterWord;
    var r := SkipDelims(s);
    RemoveDelimsSkip(s);
    if r == "" {
      RemoveDelimsNone(r);
    } else if max > 0 {
      RemoveDelimsWord(r);
      TokensKeepText(AfterWord(r), max - 1);
      ConcatCons(r[..WordLen(r)], TokensUpTo(AfterWord(r), max - 1));
    }
  }

  ghost predicate Run(t: string) {
    t != "" && forall i :: 0 <= i < |t| ==> !IsDelim(t[i])
  }

  /** Every token is a non-empty run without delimiters. */
  lemma {:induction false} TokensAreRuns(s: string, max: nat)
    ensures forall k :: 0 <= k < |TokensUpTo(s, max)| ==> Run(TokensUpTo(s, max)[k])
    decreases max
  {
    var r := SkipDelims(s);
    if max > 0 && r != "" {
      hide SkipDelims, WordLen, AfterWord;
      var rest := TokensUpTo(AfterWord(r), max - 1);
      TokensAreRuns(AfterWord(r), max - 1);
      assert WordLen(r) > 0 && Run(r[..WordLen(r)]);
      forall k | 0 <= k < |TokensUpTo(s, max)| ensures Run(TokensUpTo(s, max)[k]) {
        assert TokensUpTo(s, max) == [r[..WordLen(r)]] + rest;
      }
    }
  }

  lemma CStringFrame(b: seq<char>, c: seq<char>, q: nat, p: nat)
    requires q <= p < |b| == |c| && forall i :: 0 <= i <= p ==> b[i] == c[i]
    requires q + |CStringAt(b, q)| <= p
    ensures CStringAt(c, q) == CStringAt(b, q)
  {
    var e := q + |CStringAt(b, q)|;
    forall i | q <= i < e ensures c[i] != NUL {
      CStringByte(b, q, i);
    }
    CStringIs(c, q, e);
    assert forall i :: 0 <= i < e - q ==> c[q..e][i] == c[q + i] == b[q + i];
  }

  /** Where the scans of `strtok_r` stop. */
  lemma {:induction false} CStringTail(b: seq<char>, p: nat, k: nat)
    requires p <= |b| && k <= |CStringAt(b, p)|
    ensures CStringAt(b, p + k) == CStringAt(b, p)[k..]
    decreases k
  {
    if k > 0 {
      CStringTail(b, p + 1, k - 1);
    }
  }

  lemma {:induction false} SkipDelimsAt(s: string, k: nat)
    requires k <= |s| && forall i :: 0 <= i < k ==> IsDelim(s[i])
    requires k < |s| ==> !IsDelim(s[k])
    ensures SkipDelims(s) == s[k..]
    decreases k
  {
    if k > 0 {
      SkipDelimsAt(s[1..], k - 1);
    }
  }

  lemma {:induction false} CStringSuffix(b: seq<char>, c: seq<char>, p: nat)
    requires |b| == |c| && p <= |b| && forall i :: p <= i < |b| ==> b[i] == c[i]
    ensures CStringAt(b, p) == CStringAt(c, p)
    decreases |b| - p
  {
    if p < |b| {
      CStringSuffix(b, c, p + 1);
    }
  }

  lemma CStringByte(b: seq<char>, p: nat, i: nat)
    requires p <= |b| && p <= i < p + |CStringAt(b, p)|
    ensures b[i] == CStringAt(b, p)[i - p] && b[i] != NUL
  {
    assert CStringAt(b, p)[i - p] == b[p + (i - p)];
  }

  lemma ScanStep(b: seq<char>, q: nat)
    requires q < |b| && b[q] != NUL
    ensures |CStringAt(b, q)| == 1 + |CStringAt(b, q + 1)|
    ensures IsDelim(b[q]) ==> SkipDelims(CStringAt(b, q)) == SkipDelims(CStringAt(b, q + 1))
    ensures !IsDelim(b[q]) ==> WordLen(CStringAt(b, q)) == 1 + WordLen(CStringAt(b, q + 1))
  {
    var s, t := CStringAt(b, q), CStringAt(b, q + 1);
    assert s == [b[q]] + t && s[1..] == t;
  }

  method ScanDelims(line: array<char>, p: nat) returns (q: nat)
    requires NulAfter(line[..], p)
    ensures p <= q && NulAfter(line[..], q) && !IsDelim(line[q])
    ensures SkipDelims(CStringAt(line[..], p)) == CStringAt(line[..], q)
  {
    ghost var b := line[..];
    q := p;
    while line[q] == ' ' || line[q] == '\t'
      invariant p <= q && NulAfter(b, q)
      invariant SkipDelims(CStringAt(b, p)) == SkipDelims(CStringAt(b, q))
      decreases line.Length - q
    {
      ScanStep(b, q);
      q := q + 1;
    }
    assert !IsDelim(b[q]);
  }

  method ScanWord(line: array<char>, start: nat) returns (q: nat)
    requires NulAfter(line[..], start)
    ensures start <= q < line.Length && q - start == WordLen(CStringAt(line[..], start))
    ensures line[q] == NUL <==> q == start + |CStringAt(line[..], start)|
  {
    ghost var b := line[..];
    q := start;
    while line[q] != ' ' && line[q] != '\t' && line[q] != NUL
      invariant start <= q && NulAfter(b, q)
      invariant q - start + WordLen(CStringAt(b, q)) == WordLen(CStringAt(b, start))
      invariant q + |CStringAt(b, q)| == start + |CStringAt(b, start)|
      decreases line.Length - q
    {
      ScanStep(b, q);
      q := q + 1;
    }
    assert b[q] == line[q];
  }

  /** The buffer `b` after the byte at `end` was overwritten, seen from the token at `start`. */
  lemma TokenCut(b: seq<char>, start: nat, end: nat)
    requires NulAfter(b, start) && start <= end <= start + |CStringAt(b, start)|
    ensures CStringAt(b[end := NUL], start) == CStringAt(b, start)[..end - start]
  {
    forall i | start <= i < end ensures b[i] != NUL && b[i] == CStringAt(b, start)[i - start] {
      CStringByte(b, start, i);
    }
    CStringIs(b[end := NUL], start, end);
  }

  lemma TokenRest(b: seq<char>, start: nat, end: nat)
    requires NulAfter(b, start) && start <= end < start + |CStringAt(b, start)|
    ensures CStringAt(b[end := NUL], end + 1) == CStringAt(b, start)[end + 1 - start..]
  {
    CStringTail(b, start, end + 1 - start);
    CStringSuffix(b, b[end := NUL], end + 1);
  }

  /** Buffer `c` holds the token at `start` that comes first in `b` from `p`, and the rest at `next`. */
  ghost predicate FirstTokenAt(b: seq<char>, p: nat, c: seq<char>, start: nat, next: nat)
    requires p <= |b|
  {
    var r := SkipDelims(CStringAt(b, p));
    && p <= start && start + WordLen(r) <= next && NulAfter(c, next)
    && CStringAt(c, start) == r[..WordLen(r)]
    && CStringAt(c, next) == AfterWord(r)
  }

  lemma FirstTokenTaken(b: seq<char>, p: nat, start: nat, end: nat)
    requires NulAfter(b, p) && NulAfter(b, start) && p <= start <= end
    requires SkipDelims(CStringAt(b, p)) == CStringAt(b, start)
    requires end - start == WordLen(CStringAt(b, start))
    requires end < |b| && (b[end] == NUL <==> end == start + |CStringAt(b, start)|)
    ensures FirstTokenAt(b, p, b[end := NUL], start, if b[end] == NUL then end else end + 1)
  {
    TokenCut(b, start, end);
    if b[end] != NUL {
      TokenRest(b, start, end);
    }
  }

  /** `strtok_r` with delimiters space and tab, resuming at byte `p`. */
  method NextToken(line: array<char>, p: nat) returns (found: bool, start: nat, next: nat)
    requires NulAfter(line[..], p)
    modifies line
    ensures forall i :: 0 <= i <= p ==> line[i] == old(line[i])
    ensures found <==> SkipDelims(old(CStringAt(line[..], p))) != ""
    ensures found ==> FirstTokenAt(old(line[..]), p, line[..], start, next)
  {
    hide SkipDelims, CStringAt;
    ghost var b := line[..];
    start := ScanDelims(line, p);
    next := ScanWord(line, start);
    FirstTokenTaken(b, p, start, next);
    found := start < next;
    if line[next] != NUL {
      line[next] := NUL;
      assert line[..] == b[next := NUL];
      next := next + 1;
    } else {
      assert b == b[next := NUL];
    }
  }

  /** The token at `start` and those from `p` on are the first `max` still to be returned. */
  ghost predicate Pending(b: seq<char>, start: nat, p: nat, left: seq<string>, max: nat) {
    && NulAfter(b, p) && start <= p && max > 0 && left != []
    && CStringAt(b, start) == left[0] && start + |left[0]| <= p
    && left[1..] == TokensUpTo(CStringAt(b, p), max - 1)
  }

  /** `tokenize`: overwrites delimiters in place and returns where each token starts. */
  method Tokenize(line: array<char>, max: nat) returns (starts: seq<nat>)
    requires NulAfter(line[..], 0)
    modifies line
    ensures |starts| == |TokensUpTo(old(CStringAt(line[..], 0)), max)|
    ensures TokensEndBy(line[..], starts, TokensUpTo(old(CStringAt(line[..], 0)), max), line.Length)
  {
    hide SkipDelims, CStringAt, TokensUpTo, FirstTokenAt;
    ghost var all := TokensUpTo(CStringAt(line[..], 0), max);
    starts := [];
    ghost var left, b := all, line[..];
    var found, start: nat, p: nat := NextToken(line, 0);
    Turn(b, 0, line[..], found, start, p, left, max);
    while found && |starts| < max
      invariant |starts| <= max && |all| == |starts| + |left| && all[|starts|..] == left
      invariant |starts| < max ==> if found then Pending(line[..], start, p, left, max - |starts|) else left == []
      invariant TokensEndBy(line[..], starts, all, line.Length)
      invariant found && |starts| < max ==> TokensEndBy(line[..], starts, all, p)
      decreases max - |starts|
    {
      b := line[..];
      ghost var before := p;
      starts, left := starts + [start], left[1..];
      found, start, p := NextToken(line, p);
      TokensStay(b, line[..], starts, all, before);
      Turn(b, before, line[..], found, start, p, left, max - |starts|);
    }
  }

  lemma Turn(b: seq<char>, p: nat, c: seq<char>, found: bool, start: nat, next: nat, left: seq<string>, max: nat)
    requires p <= |b| && left == TokensUpTo(CStringAt(b, p), max)
    requires found <==> SkipDelims(CStringAt(b, p)) != ""
    requires found ==> FirstTokenAt(b, p, c, start, next)
    ensures max > 0 ==> if found then Pending(c, start, next, left, max) && p <= start else left == []
    ensures max == 0 ==> left == []
  {
  }

  /** The tokens at `starts` are `all[..|starts|]`, and they end by byte `p`. */
  ghost predicate TokensEndBy(b: seq<char>, starts: seq<nat>, all: seq<string>, p: nat) {
    && |starts| <= |all|
    && forall k :: 0 <= k < |starts| ==>
      && starts[k] + |all[k]| <= p && starts[k] < |b|
      && CStringAt(b, starts[k]) == all[k]
  }

  lemma TokensStay(b: seq<char>, c: seq<char>, starts: seq<nat>, all: seq<string>, p: nat)
    requires p < |b| == |c| && forall i :: 0 <= i <= p ==> b[i] == c[i]
    requires TokensEndBy(b, starts, all, p)
    ensures forall q :: p <= q ==> TokensEndBy(c, starts, all, q)
  {
    forall k | 0 <= k < |starts| ensures CStringAt(c, starts[k]) == all[k] {
      CStringFrame(b, c, starts[k], p);
    }
  }

  // Timestamps

  predicate IsDigit(c: char) {
    '0' <= c <= '9'
  }

  predicate IsMark(i: int) {
    i == 4 || i == 7 || i == 10 || i == 13 || i == 16 || i == 19
  }

  /** `is_valid_timestamp`, character by character. */
  predicate ValidTimestamp(ts: string) {
    && |ts| == 20
    && ts[4] == '-' && ts[7] == '-' && ts[10] == 'T' && ts[13] == ':' && ts[16] == ':' && ts[19] == 'Z'
    && forall i :: 0 <= i < 20 && !IsMark(i) ==> IsDigit(ts[i])
  }

  method IsValidTimestamp(ts: string) returns (ok: bool)
    ensures ok <==> ValidTimestamp(ts)
  {
    if |ts| != 20 {
      return false;
    }
    if ts[4] != '-' || ts[7] != '-' || ts[10] != 'T' || ts[13] != ':' || ts[16] != ':' || ts[19] != 'Z' {
      return false;
    }
    for i := 0 to 20
      invariant forall k :: 0 <= k < i && !IsMark(k) ==> IsDigit(ts[k])
    {
      if IsMark(i) {
        continue;
      }
      if !IsDigit(ts[i]) {
        return false;
      }
    }
    return true;
  }

  ghost predicate Digits(s: string, n: nat) {
    |s| == n && forall i :: 0 <= i < n ==> IsDigit(s[i])
  }

  function Stamp(year: string, month: string, day: string, hour: string, minute: string, second: string): string {
    year + "-" + month + "-" + day + "T" + hour + ":" + minute + ":" + second + "Z"
  }

  /** Every date and time written with fields of the right widths is accepted. */
  lemma StampIsValid(year: string, month: string, day: string, hour: string, minute: string, second: string)
    requires Digits(year, 4) && Digits(month, 2) && Digits(day, 2)
    requires Digits(hour, 2) && Digits(minute, 2) && Digits(second, 2)
    ensures ValidTimestamp(Stamp(year, month, day, hour, minute, second))
  {
    var ts := Stamp(year, month, day, hour, minute, second);
    forall i | 0 <= i < 20 && !IsMark(i) ensures IsDigit(ts[i]) {
      assert ts[i] == if i < 4 then year[i] else if i < 7 then month[i - 5] else if i < 10 then day[i - 8]
                      else if i < 13 then hour[i - 11] else if i < 16 then minute[i - 14] else second[i - 17];
    }
  }

  /** Only such texts are accepted. */
  lemma ValidIsStamp(ts: string)
    requires ValidTimestamp(ts)
    ensures ts == Stamp(ts[..4], ts[5..7], ts[8..10], ts[11..13], ts[14..16], ts[17..19])
    ensures Digits(ts[..4], 4) && Digits(ts[5..7], 2) && Digits(ts[8..10], 2)
    ensures Digits(ts[11..13], 2) && Digits(ts[14..16], 2) && Digits(ts[17..19], 2)
  {
    assert ts[4..5] == "-" && ts[7..8] == "-" && ts[10..11] == "T" && ts[13..14] == ":" && ts[16..17] == ":";
    assert ts[19..] == "Z";
  }

  lemma WordOfTimestamp(ts: string)
    requires ValidTimestamp(ts)
    ensures Word(ts) && |ts| == 20
  {
    forall i | 0 <= i < 20 ensures !IsDelim(ts[i]) && ts[i] != '\r' && ts[i] != '\n' && ts[i] != NUL {
      if !IsMark(i) {
        assert IsDigit(ts[i]);
      }
    }
  }
}
