/** The quote-aware statement splitter (docker/lake/apply_ddl.py:27-69). */
module Statements {
  import opened Prelude

  // ---- Python's lines and whitespace ----

  predicate IsSpace(c: char) {
    || '\t' <= c <= '\r' || '\U{1c}' <= c <= ' ' || c == '\U{85}' || c == '\U{a0}' || c == '\U{1680}'
    || '\U{2000}' <= c <= '\U{200a}' || c == '\U{2028}' || c == '\U{2029}' || c == '\U{202f}' || c == '\U{205f}'
    || c == '\U{3000}'
  }

  predicate IsBreak(c: char) {
    || '\n' <= c <= '\r' || '\U{1c}' <= c <= '\U{1e}' || c == '\U{85}' || c == '\U{2028}' || c == '\U{2029}'
  }

  function LStrip(s: string): string {
    if s != "" && IsSpace(s[0]) then LStrip(s[1..]) else s
  }

  function RStrip(s: string): string {
    if s != "" && IsSpace(s[|s| - 1]) then RStrip(s[..|s| - 1]) else s
  }

  /** `str.strip`. */
  function Strip(s: string): string {
    RStrip(LStrip(s))
  }

  /** The first line break at or after `i`, or the end. */
  function BreakFrom(s: string, i: nat): (b: nat)
    requires i <= |s|
    ensures i <= b <= |s|
    ensures forall k :: i <= k < b ==> !IsBreak(s[k])
    ensures b < |s| ==> IsBreak(s[b])
    decreases |s| - i
  {
    if i < |s| && !IsBreak(s[i]) then BreakFrom(s, i + 1) else i
  }

  /** `str.splitlines`: a carriage return and line feed together are one break, and a trailing break ends no line. */
  function SplitLines(s: string): seq<string> {
    if s == "" then [] else
      var b := BreakFrom(s, 0);
      if b == |s| then [s]
      else [s[..b]] + SplitLines(s[if s[b] == '\r' && b + 1 < |s| && s[b + 1] == '\n' then b + 2 else b + 1..])
  }

  /** `"\n".join` */
  function JoinLines(lines: seq<string>): string {
    if lines == [] then "" else if |lines| == 1 then lines[0] else lines[0] + "\n" + JoinLines(lines[1..])
  }

  predicate IsComment(line: string) {
    var t := Strip(line);
    |t| >= 2 && t[0] == '-' && t[1] == '-'
  }

  function Uncommented(line: string): Option<string> {
    if IsComment(line) then None else Some(line)
  }

  function StripComments(sql: string): string {
    var lines := SplitLines(sql);
    JoinLines(Collect(Uncommented, lines, |lines|))
  }

  // ---- the split, by parity ----

  /** How many of the first `n` characters are quotes. */
  function Quotes(s: string, n: nat): nat
    requires n <= |s|
  {
    if n == 0 then 0 else Quotes(s, n - 1) + (if s[n - 1] == '\'' then 1 else 0)
  }

  predicate Even(n: nat) {
    n % 2 == 0
  }

  /** A semicolon with an even number of quotes before it. */
  predicate Splits(s: string, i: nat)
    requires i < |s|
  {
    s[i] == ';' && Even(Quotes(s, i))
  }

  /** The pieces finished within the first `n` characters, and the one still open. */
  function PiecesTo(s: string, n: nat): (seq<string>, string)
    requires n <= |s|
  {
    if n == 0 then ([], "") else
      var (done, open) := PiecesTo(s, n - 1);
      if Splits(s, n - 1) then (done + [open], "") else (done, open + [s[n - 1]])
  }

  function Pieces(s: string): seq<string> {
    var (done, open) := PiecesTo(s, |s|);
    done + [open]
  }

  function Trimmed(piece: string): Option<string> {
    if Strip(piece) == "" then None else Some(Strip(piece))
  }

  /** The trimmed pieces that hold anything. */
  function Kept(pieces: seq<string>): seq<string> {
    Collect(Trimmed, pieces, |pieces|)
  }

  lemma {:induction false} KeptAppend(pieces: seq<string>, piece: string)
    ensures Kept(pieces + [piece]) == if Strip(piece) == "" then Kept(pieces) else Kept(pieces) + [Strip(piece)]
  {
    CollectPrefix(Trimmed, pieces + [piece], pieces, |pieces|);
  }

  lemma {:induction false} NextPiece(s: string, i: nat)
    requires i < |s|
    ensures var (done, open) := PiecesTo(s, i);
            PiecesTo(s, i + 1) == if Splits(s, i) then (done + [open], "") else (done, open + [s[i]])
    ensures Quotes(s, i + 1) == Quotes(s, i) + (if s[i] == '\'' then 1 else 0)
  {}

  /** Where the machine is after `i` characters: the parity it tracks, the open piece, the pieces kept. */
  predicate ReadTo(s: string, i: nat, out: seq<string>, buf: string, inString: bool) {
    && i <= |s| && (inString <==> !Even(Quotes(s, i)))
    && buf == PiecesTo(s, i).1 && out == Kept(PiecesTo(s, i).0)
  }

  lemma {:induction false} ReadPlain(s: string, i: nat, out: seq<string>, buf: string, inString: bool)
    requires ReadTo(s, i, out, buf, inString) && i < |s| && (s[i] != ';' || inString)
    ensures ReadTo(s, i + 1, out, buf + [s[i]], if s[i] == '\'' then !inString else inString)
  {
    NextPiece(s, i);
  }

  lemma {:induction false} ReadSemicolon(s: string, i: nat, out: seq<string>, buf: string)
    requires ReadTo(s, i, out, buf, false) && i < |s| && s[i] == ';'
    ensures ReadTo(s, i + 1, if Strip(buf) == "" then out else out + [Strip(buf)], "", false)
  {
    NextPiece(s, i);
    KeptAppend(PiecesTo(s, i).0, buf);
  }

  lemma {:induction false} ReadAll(s: string, out: seq<string>, buf: string, inString: bool)
    requires ReadTo(s, |s|, out, buf, inString)
    ensures Kept(Pieces(s)) == if Strip(buf) == "" then out else out + [Strip(buf)]
  {
    KeptAppend(PiecesTo(s, |s|).0, buf);
  }

  /** `statements` over the text without comment lines: the look-ahead machine splits by parity. */
  method SplitStatements(stripped: string) returns (out: seq<string>)
    ensures out == Kept(Pieces(stripped))
  {
    out := [];
    var buf, inString := "", false;
    var i := 0;
    while i < |stripped|
      invariant ReadTo(stripped, i, out, buf, inString)
    {
      var ch := stripped[i];
      if inString || ch != ';' {
        ReadPlain(stripped, i, out, buf, inString);
      } else {
        ReadSemicolon(stripped, i, out, buf);
      }
      if inString {
        if ch == '\'' {
          if i + 1 < |stripped| && stripped[i + 1] == '\'' {
            ReadPlain(stripped, i + 1, out, buf + [ch], false);
            buf := buf + ['\''] + ['\''];
            i := i + 2;
            continue;
          }
          inString := false;
        }
      } else if ch == '\'' {
        inString := true;
      } else if ch == ';' {
        if buf != "" && Strip(buf) != "" {
          out := out + [Strip(buf)];
        }
        buf := "";
        i := i + 1;
        continue;
      }
      buf := buf + [ch];
      i := i + 1;
    }
    ReadAll(stripped, out, buf, inString);
    if Strip(buf) != "" {
      out := out + [Strip(buf)];
    }
  }

  method Split(sql: string) returns (out: seq<string>)
    ensures out == Kept(Pieces(StripComments(sql)))
  {
    out := SplitStatements(StripComments(sql));
  }

  // ---- what the pieces are ----

  /** `";".join` */
  function JoinPieces(ps: seq<string>): string {
    if ps == [] then "" else if |ps| == 1 then ps[0] else JoinPieces(ps[..|ps| - 1]) + ";" + ps[|ps| - 1]
  }

  predicate Balanced(p: string) {
    Even(Quotes(p, |p|))
  }

  /** No semicolon of `p` splits it. */
  predicate Whole(p: string) {
    forall i :: 0 <= i < |p| ==> !Splits(p, i)
  }

  lemma {:induction false} QuotesConcat(a: string, b: string, n: nat)
    requires n <= |b|
    ensures Quotes(a + b, |a| + n) == Quotes(a, |a|) + Quotes(b, n)
  {
    if n > 0 {
      QuotesConcat(a, b, n - 1);
    } else {
      QuotesSame(a, a + b, |a|);
    }
  }

  lemma {:induction false} QuotesSame(s: string, t: string, n: nat)
    requires n <= |s| && n <= |t| && forall i :: 0 <= i < n ==> s[i] == t[i]
    ensures Quotes(s, n) == Quotes(t, n)
  {
    if n > 0 { QuotesSame(s, t, n - 1); }
  }

  lemma {:induction false} PiecesSame(s: string, t: string, n: nat)
    requires n <= |s| && n <= |t| && forall i :: 0 <= i < n ==> s[i] == t[i]
    ensures PiecesTo(s, n) == PiecesTo(t, n)
  {
    if n > 0 {
      PiecesSame(s, t, n - 1);
      QuotesSame(s, t, n - 1);
    }
  }

  /** A whole piece after a balanced text stays open to its end. */
  lemma {:induction false} PieceStaysOpen(s: string, p: string, n: nat)
    requires n <= |p| && Even(Quotes(s, |s|)) && Whole(p) && PiecesTo(s, |s|).1 == ""
    ensures PiecesTo(s + p, |s| + n) == (PiecesTo(s, |s|).0, p[..n])
  {
    if n == 0 {
      PiecesSame(s, s + p, |s|);
    } else {
      PieceStaysOpen(s, p, n - 1);
      QuotesConcat(s, p, n - 1);
      assert !Splits(p, n - 1);
      assert (s + p)[|s| + n - 1] == p[n - 1];
      assert p[..n] == p[..n - 1] + [p[n - 1]];
    }
  }

  /** Pieces laid out with a semicolon after each. */
  function Closed(ps: seq<string>, n: nat): string
    requires n <= |ps|
  {
    if n == 0 then "" else Closed(ps, n - 1) + ps[n - 1] + ";"
  }

  /** The text so far ends between two pieces, with `done` behind it. */
  predicate Between(s: string, done: seq<string>) {
    Even(Quotes(s, |s|)) && PiecesTo(s, |s|) == (done, "")
  }

  lemma {:induction false} LastOpen(s: string, p: string, done: seq<string>)
    requires Between(s, done) && Whole(p)
    ensures PiecesTo(s + p, |s + p|) == (done, p)
  {
    PieceStaysOpen(s, p, |p|);
    assert p[..|p|] == p;
  }

  lemma {:induction false} Semicolon(t: string, done: seq<string>, p: string)
    requires Even(Quotes(t, |t|)) && PiecesTo(t, |t|) == (done, p)
    ensures Between(t + ";", done + [p])
  {
    QuotesSame(t, t + ";", |t|);
    PiecesSame(t, t + ";", |t|);
    NextPiece(t + ";", |t|);
    assert Splits(t + ";", |t|);
  }

  lemma {:induction false} ClosedPieces(ps: seq<string>, n: nat)
    requires n <= |ps| && forall i :: 0 <= i < n ==> Balanced(ps[i]) && Whole(ps[i])
    ensures Between(Closed(ps, n), ps[..n])
  {
    if n > 0 {
      ClosedPieces(ps, n - 1);
      LastOpen(Closed(ps, n - 1), ps[n - 1], ps[..n - 1]);
      QuotesConcat(Closed(ps, n - 1), ps[n - 1], |ps[n - 1]|);
      Semicolon(Closed(ps, n - 1) + ps[n - 1], ps[..n - 1], ps[n - 1]);
      assert ps[..n] == ps[..n - 1] + [ps[n - 1]];
    }
  }

  lemma {:induction false} JoinIsClosed(ps: seq<string>)
    requires ps != []
    ensures JoinPieces(ps) == Closed(ps, |ps| - 1) + ps[|ps| - 1]
  {
    if |ps| > 1 {
      JoinIsClosed(ps[..|ps| - 1]);
      ClosedSame(ps, ps[..|ps| - 1], |ps| - 2);
    }
  }

  lemma {:induction false} ClosedSame(ps: seq<string>, qs: seq<string>, n: nat)
    requires n <= |ps| && n <= |qs| && forall i :: 0 <= i < n ==> ps[i] == qs[i]
    ensures Closed(ps, n) == Closed(qs, n)
  {
    if n > 0 { ClosedSame(ps, qs, n - 1); }
  }

  lemma {:induction false} PiecesAtEnd(s: string, p: string, done: seq<string>)
    requires Between(s, done) && Whole(p)
    ensures Pieces(s + p) == done + [p]
  {
    LastOpen(s, p, done);
  }

  lemma {:induction false} ClosedLast(ps: seq<string>, n: nat)
    requires n < |ps| && Whole(ps[n]) && forall i :: 0 <= i < n ==> Balanced(ps[i]) && Whole(ps[i])
    ensures Pieces(Closed(ps, n) + ps[n]) == ps[..n] + [ps[n]]
  {
    ClosedPieces(ps, n);
    PiecesAtEnd(Closed(ps, n), ps[n], ps[..n]);
  }

  /** Whole pieces, balanced up to the last, are what their join splits into: there is no other way to split it. */
  lemma {:induction false} PiecesOfJoin(ps: seq<string>)
    requires ps != [] && forall i :: 0 <= i < |ps| ==> Whole(ps[i])
    requires forall i :: 0 <= i < |ps| - 1 ==> Balanced(ps[i])
    ensures Pieces(JoinPieces(ps)) == ps
  {
    InitLast(ps);
    ClosedLast(ps, |ps| - 1);
    JoinIsClosed(ps);
  }

  /** The finished pieces and the open one, joined, are the text read so far. */
  lemma {:induction false} PiecesRejoin(s: string, n: nat)
    requires n <= |s|
    ensures var (done, open) := PiecesTo(s, n); JoinPieces(done + [open]) == s[..n]
  {
    if n > 0 {
      PiecesRejoin(s, n - 1);
      var (done, open) := PiecesTo(s, n - 1);
      assert s[..n] == s[..n - 1] + [s[n - 1]];
      if Splits(s, n - 1) {
        assert (done + [open] + [""])[..|done| + 1] == done + [open];
      } else {
        assert (done + [open + [s[n - 1]]])[..|done|] == done == (done + [open])[..|done|];
      }
    }
  }

  ghost predicate OpenPiece(s: string, n: nat, done: seq<string>, open: string)
    requires n <= |s|
  {
    && (forall i :: 0 <= i < |done| ==> Whole(done[i]) && Balanced(done[i]))
    && Whole(open) && (Even(Quotes(open, |open|)) <==> Even(Quotes(s, n)))
  }

  lemma {:induction false} OneMoreChar(open: string, c: char)
    ensures Quotes(open + [c], |open| + 1) == Quotes(open, |open|) + (if c == '\'' then 1 else 0)
    ensures forall i :: 0 <= i <= |open| ==> Quotes(open + [c], i) == Quotes(open, i)
  {
    forall i | 0 <= i <= |open| ensures Quotes(open + [c], i) == Quotes(open, i) {
      QuotesSame(open, open + [c], i);
    }
  }

  lemma {:induction false} SplitsLast(open: string, c: char)
    ensures Splits(open + [c], |open|) <==> c == ';' && Even(Quotes(open, |open|))
    ensures forall i :: 0 <= i < |open| ==> (Splits(open + [c], i) <==> Splits(open, i))
  {
    OneMoreChar(open, c);
  }

  lemma {:induction false} SameParity(a: nat, b: nat, d: nat)
    requires Even(a) <==> Even(b)
    ensures Even(a + d) <==> Even(b + d)
  {}

  lemma {:induction false} GrowWhole(open: string, c: char)
    requires Whole(open) && (c == ';' ==> !Even(Quotes(open, |open|)))
    ensures Whole(open + [c])
  {
    SplitsLast(open, c);
    forall i | 0 <= i < |open + [c]| ensures !Splits(open + [c], i) {
      if i < |open| { assert !Splits(open, i); }
    }
  }

  lemma {:induction false} GrowPiece(open: string, c: char, s: string, n: nat)
    requires n < |s| && c == s[n] && Whole(open) && !Splits(s, n)
    requires Even(Quotes(open, |open|)) <==> Even(Quotes(s, n))
    ensures Whole(open + [c]) && (Even(Quotes(open + [c], |open| + 1)) <==> Even(Quotes(s, n + 1)))
  {
    GrowWhole(open, c);
    OneMoreChar(open, c);
    NextPiece(s, n);
    SameParity(Quotes(open, |open|), Quotes(s, n), if c == '\'' then 1 else 0);
  }

  /** Every piece is whole, and every one a semicolon ended is balanced. */
  lemma {:induction false} PiecesAreWhole(s: string, n: nat)
    requires n <= |s|
    ensures OpenPiece(s, n, PiecesTo(s, n).0, PiecesTo(s, n).1)
  {
    if n > 0 {
      PiecesAreWhole(s, n - 1);
      if !Splits(s, n - 1) { GrowPiece(PiecesTo(s, n - 1).1, s[n - 1], s, n - 1); }
    }
  }

  /** The pieces are the text cut at exactly its splitting semicolons. */
  lemma {:induction false} PiecesMean(s: string)
    ensures var ps := Pieces(s);
            && ps != [] && JoinPieces(ps) == s
            && (forall i :: 0 <= i < |ps| ==> Whole(ps[i]))
            && (forall i :: 0 <= i < |ps| - 1 ==> Balanced(ps[i]))
  {
    PiecesRejoin(s, |s|);
    PiecesAreWhole(s, |s|);
    assert s[..|s|] == s;
  }

  // ---- the round trip ----

  lemma {:induction false} KeptTrimmed(ps: seq<string>, n: nat)
    requires n <= |ps| && forall i :: 0 <= i < |ps| ==> ps[i] != "" && Strip(ps[i]) == ps[i]
    ensures Collect(Trimmed, ps, n) == ps[..n]
  {
    if n > 0 {
      KeptTrimmed(ps, n - 1);
      assert ps[..n] == ps[..n - 1] + [ps[n - 1]];
    }
  }

  /** Text whose lines end in plain line feeds, the last in none. */
  predicate PlainLines(s: string) {
    && (forall i :: 0 <= i < |s| && IsBreak(s[i]) ==> s[i] == '\n')
    && (s != "" ==> s[|s| - 1] != '\n')
  }

  predicate NoComments(s: string) {
    forall line :: line in SplitLines(s) ==> !IsComment(line)
  }

  lemma {:induction false} LinesRejoin(s: string)
    requires PlainLines(s)
    ensures JoinLines(SplitLines(s)) == s
  {
    if s != "" {
      var b := BreakFrom(s, 0);
      if b < |s| {
        var rest := s[b + 1..];
        assert s[b] == '\n' && rest != "";
        LinesRejoin(rest);
        assert SplitLines(s) == [s[..b]] + SplitLines(rest);
        assert SplitLines(s)[1..] == SplitLines(rest) != [];
        assert s == s[..b] + "\n" + rest;
      }
    }
  }

  lemma {:induction false} NothingDropped(lines: seq<string>, n: nat)
    requires n <= |lines| && forall line :: line in lines ==> !IsComment(line)
    ensures Collect(Uncommented, lines, n) == lines[..n]
  {
    if n > 0 {
      NothingDropped(lines, n - 1);
      assert lines[n - 1] in lines;
      assert lines[..n] == lines[..n - 1] + [lines[n - 1]];
    }
  }

  /** Dropping comment lines leaves commentless text alone. */
  lemma {:induction false} StripNothing(s: string)
    requires PlainLines(s) && NoComments(s)
    ensures StripComments(s) == s
  {
    LinesRejoin(s);
    NothingDropped(SplitLines(s), |SplitLines(s)|);
    assert SplitLines(s)[..|SplitLines(s)|] == SplitLines(s);
  }

  lemma {:induction false} KeptAll(ps: seq<string>)
    requires forall i :: 0 <= i < |ps| ==> ps[i] != "" && Strip(ps[i]) == ps[i]
    ensures Kept(ps) == ps
  {
    KeptTrimmed(ps, |ps|);
    assert ps[..|ps|] == ps;
  }

  lemma {:induction false} NothingKept()
    ensures Kept(Pieces("")) == []
  {
    assert Pieces("") == [""];
    KeptAppend([], "");
  }

  /**
   Trimmed, non-empty, quote-balanced statements without a bare semicolon, joined with `;` into text without comment
   lines, split back into themselves.
   */
  lemma {:induction false} RoundTrip(stmts: seq<string>)
    requires forall i :: 0 <= i < |stmts| ==>
               stmts[i] != "" && Strip(stmts[i]) == stmts[i] && Balanced(stmts[i]) && Whole(stmts[i])
    requires PlainLines(JoinPieces(stmts)) && NoComments(JoinPieces(stmts))
    ensures Kept(Pieces(StripComments(JoinPieces(stmts)))) == stmts
  {
    StripNothing(JoinPieces(stmts));
    if stmts == [] {
      NothingKept();
    } else {
      assert Pieces(JoinPieces(stmts)) == stmts by { PiecesOfJoin(stmts); }
      KeptAll(stmts);
    }
  }

  // ---- comment lines ----

  /** White space, then two hyphens. */
  ghost predicate Hyphened(line: string) {
    exists k :: 0 <= k < |line| - 1 && line[k] == '-' && line[k + 1] == '-' && Blank(line, k)
  }

  /** White space up to `k`. */
  ghost predicate Blank(s: string, k: nat)
    requires k <= |s|
  {
    k == 0 || (Blank(s, k - 1) && IsSpace(s[k - 1]))
  }

  lemma {:induction false} BlankAt(s: string, k: nat, j: nat)
    requires j < k <= |s| && Blank(s, k)
    ensures IsSpace(s[j])
  {
    if j < k - 1 { BlankAt(s, k - 1, j); }
  }

  lemma {:induction false} BlankRest(s: string, k: nat)
    requires s != "" && IsSpace(s[0]) && k < |s| && Blank(s[1..], k)
    ensures Blank(s, k + 1)
  {
    if k > 0 { BlankRest(s, k - 1); }
  }

  lemma {:induction false} LStripFrom(s: string) returns (k: nat)
    ensures k <= |s| && LStrip(s) == s[k..] && Blank(s, k)
    ensures k < |s| ==> !IsSpace(s[k])
  {
    if s != "" && IsSpace(s[0]) {
      k := LStripFrom(s[1..]);
      assert s[1..][k..] == s[k + 1..];
      BlankRest(s, k);
      k := k + 1;
    } else {
      k := 0;
    }
  }

  lemma {:induction false} RStripTo(s: string) returns (m: nat)
    ensures m <= |s| && RStrip(s) == s[..m]
    ensures m < |s| ==> IsSpace(s[m])
  {
    if s != "" && IsSpace(s[|s| - 1]) {
      m := RStripTo(s[..|s| - 1]);
      assert s[..|s| - 1][..m] == s[..m];
    } else {
      m := |s|;
    }
  }

  lemma {:induction false} CommentIff(line: string)
    ensures IsComment(line) <==> Hyphened(line)
  {
    var k := LStripFrom(line);
    var t := line[k..];
    var m := RStripTo(t);
    assert !IsSpace('-');
    if Hyphened(line) {
      var i :| 0 <= i < |line| - 1 && line[i] == '-' && line[i + 1] == '-' && Blank(line, i);
      if k < i { BlankAt(line, i, k); }
      if i < k { BlankAt(line, k, i); }
      assert i == k && t[0] == '-' && t[1] == '-';
      assert m != 0 && m != 1;
    }
    if IsComment(line) {
      assert t[0] == line[k] && t[1] == line[k + 1];
    }
  }

  /** No line break inside. */
  predicate OneLine(line: string) {
    forall i :: 0 <= i < |line| ==> !IsBreak(line[i])
  }

  lemma {:induction false} BreakAfter(line: string, rest: string, i: nat)
    requires OneLine(line) && i <= |line|
    ensures BreakFrom(line + "\n" + rest, i) == |line|
    decreases |line| - i
  {
    if i < |line| { BreakAfter(line, rest, i + 1); }
  }

  lemma {:induction false} NoBreak(line: string, i: nat)
    requires OneLine(line) && i <= |line|
    ensures BreakFrom(line, i) == |line|
    decreases |line| - i
  {
    if i < |line| { NoBreak(line, i + 1); }
  }

  /** Lines joined and split again are the lines. */
  lemma {:induction false} LinesComeBack(lines: seq<string>)
    requires forall i :: 0 <= i < |lines| ==> OneLine(lines[i])
    requires lines != [] ==> lines[|lines| - 1] != ""
    ensures SplitLines(JoinLines(lines)) == lines
  {
    if |lines| == 1 {
      NoBreak(lines[0], 0);
    } else if |lines| > 1 {
      var first, rest := lines[0], JoinLines(lines[1..]);
      LinesComeBack(lines[1..]);
      BreakAfter(first, rest, 0);
      var s := first + "\n" + rest;
      assert s[|first|] == '\n' && s[..|first|] == first && s[|first| + 1..] == rest;
      assert lines == [first] + lines[1..];
    }
  }

  lemma {:induction false} CommentDropped(lines: seq<string>, i: nat, comment: string)
    requires i <= |lines| && Hyphened(comment)
    ensures var more := lines[..i] + [comment] + lines[i..];
            Collect(Uncommented, more, |more|) == Collect(Uncommented, lines, |lines|)
  {
    var a, b := lines[..i], lines[i..];
    SetBetween(a, [comment], b);
    CommentIff(comment);
    assert Collect(Uncommented, [comment], 0) == [] && Collect(Uncommented, [comment], 1) == [];
    CollectConcat(Uncommented, a, b, |b|);
    assert lines == a + b;
    var kept := Collect(Uncommented, a, |a|);
    assert kept + [] == kept;
  }

  lemma {:induction false} SetBetween(a: seq<string>, mid: seq<string>, b: seq<string>)
    ensures Collect(Uncommented, a + mid + b, |a + mid + b|)
         == Collect(Uncommented, a, |a|) + Collect(Uncommented, mid, |mid|) + Collect(Uncommented, b, |b|)
  {
    CollectConcat(Uncommented, a + mid, b, |b|);
    CollectConcat(Uncommented, a, mid, |mid|);
  }

  /** A comment line set between lines, wherever, changes nothing: it adds no statement and splits none. */
  lemma {:induction false} CommentsSayNothing(lines: seq<string>, i: nat, comment: string)
    requires i <= |lines| && Hyphened(comment) && OneLine(comment)
    requires forall k :: 0 <= k < |lines| ==> OneLine(lines[k])
    requires lines != [] && lines[|lines| - 1] != ""
    ensures var more := lines[..i] + [comment] + lines[i..];
            && StripComments(JoinLines(more)) == StripComments(JoinLines(lines))
            && Kept(Pieces(StripComments(JoinLines(more)))) == Kept(Pieces(StripComments(JoinLines(lines))))
  {
    LinesComeBack(lines);
    LinesComeBack(lines[..i] + [comment] + lines[i..]);
    CommentDropped(lines, i, comment);
  }

  /** And a line that is none is never dropped. */
  lemma {:induction false} OthersStay(lines: seq<string>)
    requires forall i :: 0 <= i < |lines| ==> OneLine(lines[i]) && !Hyphened(lines[i])
    requires lines != [] ==> lines[|lines| - 1] != ""
    ensures StripComments(JoinLines(lines)) == JoinLines(lines)
  {
    LinesComeBack(lines);
    forall line | line in lines ensures !IsComment(line) {
      var i :| 0 <= i < |lines| && lines[i] == line;
      CommentIff(line);
    }
    NothingDropped(lines, |lines|);
    assert lines[..|lines|] == lines;
  }
}
