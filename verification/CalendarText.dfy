/** Calendar attachments: escaped text, folded content lines and the event they
    make up, on octets (services/core/cmd/api/mail.go; sections 3.1 and 3.3.11
    of RFC 5545, section 3 of RFC 3629). */
module CalendarText {
  import opened Common

  const CR: Byte := 13
  const LF: Byte := 10
  const SPACE: Byte := 32
  const TAB: Byte := 9
  const BACKSLASH: Byte := 92
  const SEMICOLON: Byte := 59
  const COMMA: Byte := 44
  const LOWER_N: Byte := 110
  const UPPER_N: Byte := 78
  const CRLF: Bytes := [CR, LF]
  const BREAK: Bytes := [CR, LF, SPACE]

  // ---- characters ----

  /** c & 0xC0 != 0x80 */
  predicate IsRuneStart(c: Byte) { c / 64 != 2 }

  /** The length of the well-formed UTF-8 character at the front, or 0. */
  function CharLength(s: Bytes): nat {
    if s == [] then 0
    else if s[0] < 0x80 then 1
    else if 0xC2 <= s[0] < 0xE0 then (if |s| >= 2 && !IsRuneStart(s[1]) then 2 else 0)
    else if 0xE0 <= s[0] < 0xF0 then
      (if |s| >= 3 && !IsRuneStart(s[1]) && !IsRuneStart(s[2])
          && (s[0] == 0xE0 ==> s[1] >= 0xA0) && (s[0] == 0xED ==> s[1] < 0xA0) then 3 else 0)
    else if 0xF0 <= s[0] < 0xF5 then
      (if |s| >= 4 && !IsRuneStart(s[1]) && !IsRuneStart(s[2]) && !IsRuneStart(s[3])
          && (s[0] == 0xF0 ==> s[1] >= 0x90) && (s[0] == 0xF4 ==> s[1] < 0x90) then 4 else 0)
    else 0
  }

  /** Valid UTF-8. */
  predicate Utf8(s: Bytes) {
    s == [] || (CharLength(s) > 0 && Utf8(s[CharLength(s)..]))
  }

  lemma CharShape(s: Bytes)
    ensures var n := CharLength(s);
      n <= 4 && n <= |s| && (n > 0 ==> IsRuneStart(s[0])) && forall k | 1 <= k < n :: !IsRuneStart(s[k])
  {}

  /** The first character does not depend on what follows it. */
  lemma CharPrefix(s: Bytes, t: Bytes)
    requires CharLength(s) > 0
    ensures CharLength(s + t) == CharLength(s)
    ensures forall n | CharLength(s) <= n <= |s| :: CharLength(s[..n]) == CharLength(s)
  {}

  lemma {:induction false} Utf8Concat(s: Bytes, t: Bytes)
    requires Utf8(s) && Utf8(t)
    ensures Utf8(s + t)
  {
    hide CharLength;
    if s == [] {
      assert s + t == t;
    } else {
      var n := CharLength(s);
      CharShape(s);
      CharPrefix(s, t);
      Utf8Concat(s[n..], t);
      assert (s + t)[n..] == s[n..] + t;
    }
  }

  /** Cutting before a character start leaves two valid halves. */
  lemma {:induction false} Utf8Split(s: Bytes, c: nat)
    requires Utf8(s) && c < |s| && IsRuneStart(s[c])
    ensures Utf8(s[..c]) && Utf8(s[c..])
  {
    if c == 0 {
      assert s[..0] == [] && s[0..] == s;
    } else {
      var n := CharLength(s);
      CharShape(s);
      assert c >= n;
      assert s[n..][c - n] == s[c];
      Utf8Split(s[n..], c - n);
      CharPrefix(s, []);
      assert s[..c][n..] == s[n..][..c - n];
      assert s[n..][c - n..] == s[c..];
    }
  }

  /** In valid UTF-8 a character starts in any four octets in a row. */
  lemma {:induction false} StartNearby(s: Bytes, c: nat)
    requires Utf8(s) && 3 <= c < |s|
    ensures IsRuneStart(s[c]) || IsRuneStart(s[c - 1]) || IsRuneStart(s[c - 2]) || IsRuneStart(s[c - 3])
  {
    var n := CharLength(s);
    CharShape(s);
    var t := s[n..];
    if c < n {
      assert c == 3 && IsRuneStart(s[0]);
    } else if c - n < 3 {
      CharShape(t);
      assert IsRuneStart(t[0]) && t[0] == s[n];
    } else {
      StartNearby(t, c - n);
      assert t[c - n] == s[c] && t[c - n - 1] == s[c - 1] && t[c - n - 2] == s[c - 2] && t[c - n - 3] == s[c - 3];
    }
  }

  // ---- folding ----

  /** The last character start at or before a position, or 0. */
  function CutAt(line: Bytes, limit: nat): (c: nat)
    requires limit < |line|
    ensures c <= limit && (c > 0 ==> IsRuneStart(line[c]))
    ensures forall k | c < k <= limit :: !IsRuneStart(line[k])
  {
    if limit == 0 || IsRuneStart(line[limit]) then limit else CutAt(line, limit - 1)
  }

  const FIRST: nat := 75
  const NEXT: nat := 74

  /** A long line of which no character starts within the limit: nothing can
      be cut off. */
  predicate Jams(line: Bytes, limit: nat) {
    |line| > limit && forall k | 1 <= k <= limit :: !IsRuneStart(line[k])
  }

  /** The loop never jams: neither at the beginning, nor at a later character
      that is followed by 74 octets in which none starts. */
  predicate Flows(line: Bytes, limit: nat) {
    !Jams(line, limit) && forall p | 0 < p < |line| && IsRuneStart(line[p]) :: !Jams(line[p..], NEXT)
  }

  predicate Foldable(line: Bytes) { Flows(line, FIRST) }

  /** Where a line flows something is cut off, and the rest flows. */
  lemma CutFlows(line: Bytes, limit: nat)
    requires Flows(line, limit) && limit < |line|
    ensures var c := CutAt(line, limit); 0 < c && Flows(line[c..], NEXT)
  {
    var c := CutAt(line, limit);
    forall p | 0 < p < |line[c..]| && IsRuneStart(line[c..][p]) ensures !Jams(line[c..][p..], NEXT) {
      assert line[c..][p..] == line[c + p..];
    }
  }

  /** Valid UTF-8 always flows. */
  lemma Utf8Flows(line: Bytes, limit: nat)
    requires Utf8(line) && limit >= 4
    ensures Flows(line, limit)
  {
    hide Utf8;
    if |line| > limit {
      StartNearby(line, 4);
    }
    forall p | 0 < p < |line| && IsRuneStart(line[p]) ensures !Jams(line[p..], NEXT) {
      Utf8Split(line, p);
      if |line[p..]| > NEXT {
        StartNearby(line[p..], 4);
      }
    }
  }

  /** Whether the folding loop, entered with this line and limit, is over after
      at most n rounds. */
  ghost predicate Over(line: Bytes, limit: nat, n: nat)
    decreases n
  {
    |line| <= limit || (n > 0 && Over(line[CutAt(line, limit)..], NEXT, n - 1))
  }

  lemma {:induction false} FlowsIsOver(line: Bytes, limit: nat, n: nat)
    requires Flows(line, limit) && |line| <= n
    ensures Over(line, limit, n)
    decreases n
  {
    hide Flows;
    if |line| > limit {
      CutFlows(line, limit);
      FlowsIsOver(line[CutAt(line, limit)..], NEXT, n - 1);
    }
  }

  /** Where nothing can be cut off the loop stays where it is. */
  lemma {:induction false} JamStays(line: Bytes, limit: nat, n: nat)
    requires NEXT <= limit && Jams(line, limit)
    ensures !Over(line, limit, n)
    decreases n
  {
    assert CutAt(line, limit) == 0 && line[0..] == line;
    assert Jams(line, NEXT);
    if n > 0 {
      JamStays(line, NEXT, n - 1);
    }
  }

  /** A jam further on is still there after a cut. */
  lemma JamAhead(line: Bytes, limit: nat, p: nat)
    requires limit < |line| && 0 < p < |line| && IsRuneStart(line[p]) && Jams(line[p..], NEXT) && limit <= p + NEXT
    ensures !Flows(line[CutAt(line, limit)..], NEXT)
  {
    assert forall k | p < k <= p + NEXT :: line[k] == line[p..][k - p] && !IsRuneStart(line[k]);
    var c := CutAt(line, limit);
    assert c <= p;
    if c < p {
      assert line[c..][p - c..] == line[p..] && line[c..][p - c] == line[p];
    }
  }

  lemma {:induction false} JamIsNeverOver(line: Bytes, limit: nat, n: nat)
    requires (limit == FIRST || limit == NEXT) && !Flows(line, limit)
    ensures !Over(line, limit, n)
    decreases n
  {
    hide CutAt, Jams;
    if Jams(line, limit) {
      JamStays(line, limit, n);
    } else {
      var p :| 0 < p < |line| && IsRuneStart(line[p]) && Jams(line[p..], NEXT);
      JamIsLong(line[p..]);
      JamAhead(line, limit, p);
      if n > 0 {
        JamIsNeverOver(line[CutAt(line, limit)..], NEXT, n - 1);
      }
    }
  }

  lemma JamIsLong(line: Bytes)
    requires Jams(line, NEXT)
    ensures |line| > NEXT
  {}

  /** Exactly which lines the loop gets through: those that never put 74 octets
      without a character start behind one (75 behind the very first octet).
      On any other it writes line breaks for ever. */
  lemma FoldEndsExactly(line: Bytes)
    ensures (exists n: nat :: Over(line, FIRST, n)) <==> Foldable(line)
  {
    if Foldable(line) {
      FlowsIsOver(line, FIRST, |line|);
    } else {
      forall n: nat ensures !Over(line, FIRST, n) {
        JamIsNeverOver(line, FIRST, n);
      }
    }
  }

  /** Such lines exist, though none of them is valid UTF-8. */
  lemma FoldCanJam() returns (line: Bytes)
    ensures |line| == 76 && !Utf8(line)
    ensures forall n: nat :: !Over(line, FIRST, n)
  {
    hide Utf8;
    line := seq(76, _ => 0x80);
    assert Jams(line, FIRST);
    if Utf8(line) {
      Utf8Flows(line, FIRST);
    }
    FoldEndsExactly(line);
  }

  /** The pieces a line is cut into; the limit is one less after the first,
      since the leading space counts. */
  function Pieces(line: Bytes, limit: nat): (r: seq<Bytes>)
    requires Flows(line, limit)
    ensures |r| > 0
    decreases |line|
  {
    if |line| <= limit then [line]
    else
      var c := CutAt(line, limit);
      CutFlows(line, limit);
      [line[..c]] + Pieces(line[c..], NEXT)
  }

  /** The physical text of a list of pieces. */
  function Text(pieces: seq<Bytes>): Bytes
    requires pieces != []
  {
    if |pieces| == 1 then pieces[0] + CRLF else pieces[0] + BREAK + Text(pieces[1..])
  }

  function Joined(pieces: seq<Bytes>): Bytes {
    if pieces == [] then [] else pieces[0] + Joined(pieces[1..])
  }

  function Folded(line: Bytes): Bytes
    requires Foldable(line)
  {
    Text(Pieces(line, FIRST))
  }

  /** foldICSLine */
  method FoldLine(content: Bytes) returns (out: Bytes)
    requires Foldable(content)
    ensures out == Folded(content)
  {
    var line, limit := content, FIRST;
    out := [];
    assert [] + Folded(content) == Folded(content);
    while |line| > limit
      invariant Flows(line, limit)
      invariant out + Text(Pieces(line, limit)) == Folded(content)
      decreases |line|
    {
      var cut := limit;
      while cut > 0 && !IsRuneStart(line[cut])
        invariant 0 <= cut <= limit && CutAt(line, cut) == CutAt(line, limit)
      {
        cut := cut - 1;
      }
      CutFlows(line, limit);
      assert Pieces(line, limit)[1..] == Pieces(line[cut..], NEXT);
      assert out + (line[..cut] + BREAK + Text(Pieces(line[cut..], NEXT)))
        == out + (line[..cut] + BREAK) + Text(Pieces(line[cut..], NEXT));
      out := out + (line[..cut] + BREAK);
      line := line[cut..];
      limit := NEXT;
    }
    out := out + (line + CRLF);
  }

  /** One cut of a line that flows, or its end. */
  lemma PiecesCut(line: Bytes, limit: nat)
    requires Flows(line, limit)
    ensures |line| <= limit ==> Pieces(line, limit) == [line]
    ensures |line| > limit ==>
      var c := CutAt(line, limit);
      0 < c <= limit && Flows(line[c..], NEXT) && Pieces(line, limit) == [line[..c]] + Pieces(line[c..], NEXT)
  {
    if |line| > limit {
      CutFlows(line, limit);
    }
  }

  lemma {:induction false} FullUpTo(line: Bytes, limit: nat, k: nat)
    requires Flows(line, limit) && k + 1 < |Pieces(line, limit)|
    ensures var ps := Pieces(line, limit);
      var next := ps[k + 1];
      var room := (if k == 0 then limit else NEXT) - |ps[k]|;
      && 0 <= room < |next| && IsRuneStart(next[0])
      && forall m | 1 <= m <= room :: !IsRuneStart(next[m])
    decreases |line|
  {
    hide Flows, CutAt, Pieces;
    PiecesCut(line, limit);
    var c := CutAt(line, limit);
    if k > 0 {
      FullUpTo(line[c..], NEXT, k - 1);
    } else {
      PiecesCut(line[c..], NEXT);
      CutIsLast(line, limit);
    }
  }

  lemma CutIsLast(line: Bytes, limit: nat)
    requires limit < |line| && CutAt(line, limit) > 0
    ensures var c := CutAt(line, limit);
      && IsRuneStart(line[c..][0]) && (forall m | 1 <= m <= limit - c :: !IsRuneStart(line[c..][m]))
      && (|line[c..]| > NEXT ==> CutAt(line[c..], NEXT) == 0 || CutAt(line[c..], NEXT) > limit - c)
  {}

  /** No piece ends early: the first has 75 octets and the others 74, unless a
      character would be split there, and then they end right before it. */
  lemma PiecesAreFull(line: Bytes, k: nat)
    requires Foldable(line) && k + 1 < |Pieces(line, FIRST)|
    ensures var ps := Pieces(line, FIRST);
      var next := ps[k + 1];
      var room := (if k == 0 then 75 else 74) - |ps[k]|;
      && 0 <= room < |next| && IsRuneStart(next[0])
      && forall m | 1 <= m <= room :: !IsRuneStart(next[m])
  {
    FullUpTo(line, FIRST, k);
  }

  /** The first physical line has at most 75 octets, every other at most 75
      with its leading space, and put together the pieces are the line. */
  lemma {:induction false} PiecesFit(line: Bytes, limit: nat)
    requires Flows(line, limit)
    ensures var ps := Pieces(line, limit);
      && Joined(ps) == line
      && |ps[0]| <= limit
      && (forall p | p in ps[1..] :: 1 + |p| <= 75)
    decreases |line|
  {
    hide Joined, Flows, CutAt, Pieces;
    PiecesCut(line, limit);
    if |line| <= limit {
      assert [line][1..] == [];
      JoinedOne(line);
    } else {
      var c := CutAt(line, limit);
      PiecesFit(line[c..], NEXT);
      FrontPiece(line[..c], Pieces(line[c..], NEXT));
    }
  }

  /** No character is split: every piece of valid UTF-8 is valid UTF-8. */
  lemma {:induction false} PiecesKeepCharacters(line: Bytes, limit: nat)
    requires Utf8(line) && Flows(line, limit)
    ensures forall p | p in Pieces(line, limit) :: Utf8(p)
    decreases |line|
  {
    hide Utf8, Flows, Pieces;
    PiecesCut(line, limit);
    if |line| > limit {
      var c := CutAt(line, limit);
      Utf8Split(line, c);
      PiecesKeepCharacters(line[c..], NEXT);
      FrontPiece(line[..c], Pieces(line[c..], NEXT));
    }
  }

  lemma JoinedOne(p: Bytes)
    ensures Joined([p]) == p
  {}

  lemma FrontPiece(p: Bytes, rest: seq<Bytes>)
    requires rest != []
    ensures var ps := [p] + rest;
      && Joined(ps) == p + Joined(rest) && ps[0] == p
      && (forall x | x in ps :: x == p || x in rest)
      && (forall x | x in ps[1..] :: x == rest[0] || x in rest[1..])
  {}

  // ---- unfolding ----

  predicate Blank(b: Byte) { b == SPACE || b == TAB }

  predicate StartsWithFold(t: Bytes) { |t| >= 3 && t[0] == CR && t[1] == LF && Blank(t[2]) }

  /** Section 3.1 of RFC 5545: a line break followed by one blank disappears. */
  function Unfold(t: Bytes): Bytes {
    if t == [] then []
    else if StartsWithFold(t) then Unfold(t[3..])
    else [t[0]] + Unfold(t[1..])
  }

  predicate OneLine(s: Bytes) { forall i | 0 <= i < |s| :: s[i] != CR && s[i] != LF }

  lemma {:induction false} UnfoldPlain(s: Bytes, t: Bytes)
    requires OneLine(s)
    ensures Unfold(s + t) == s + Unfold(t)
  {
    if s == [] {
      assert s + t == t;
    } else {
      UnfoldPlain(s[1..], t);
      assert (s + t)[1..] == s[1..] + t;
    }
  }

  lemma UnfoldBreak(tail: Bytes)
    ensures Unfold(BREAK + tail) == Unfold(tail)
  {}

  /** Unfolding the text of pieces gives the pieces back in one line. */
  lemma {:induction false} UnfoldText(pieces: seq<Bytes>, rest: Bytes)
    requires pieces != [] && forall i | 0 <= i < |pieces| :: OneLine(pieces[i])
    requires rest == [] || !Blank(rest[0])
    ensures Unfold(Text(pieces) + rest) == Joined(pieces) + CRLF + Unfold(rest)
  {
    hide OneLine, Unfold;
    if |pieces| == 1 {
      UnfoldPlain(pieces[0], CRLF + rest);
      LineEnd(rest);
      assert pieces[0] + CRLF + rest == pieces[0] + (CRLF + rest);
      assert pieces[1..] == [] && Joined(pieces) == pieces[0] + [];
      assert pieces[0] + [] == pieces[0];
      assert pieces[0] + (CRLF + Unfold(rest)) == pieces[0] + CRLF + Unfold(rest);
    } else {
      var tail := Text(pieces[1..]) + rest;
      UnfoldPlain(pieces[0], BREAK + tail);
      assert pieces[0] + BREAK + Text(pieces[1..]) + rest == pieces[0] + (BREAK + tail);
      UnfoldBreak(tail);
      UnfoldText(pieces[1..], rest);
      assert pieces[0] + (Joined(pieces[1..]) + CRLF + Unfold(rest)) == pieces[0] + Joined(pieces[1..]) + CRLF + Unfold(rest);
    }
  }

  lemma UnfoldOne(b: Byte, rest: Bytes)
    requires !StartsWithFold([b] + rest)
    ensures Unfold([b] + rest) == [b] + Unfold(rest)
  {
    assert ([b] + rest)[1..] == rest;
  }

  lemma LineEnd(rest: Bytes)
    requires rest == [] || !Blank(rest[0])
    ensures Unfold(CRLF + rest) == CRLF + Unfold(rest)
  {
    hide Unfold;
    UnfoldOne(LF, rest);
    UnfoldOne(CR, [LF] + rest);
    assert CRLF + rest == [CR] + ([LF] + rest);
    assert CRLF + Unfold(rest) == [CR] + ([LF] + Unfold(rest));
  }

  /** A part of one line is one line. */
  lemma {:induction false} PiecesOneLine(line: Bytes, limit: nat)
    requires Flows(line, limit) && OneLine(line)
    ensures forall p | p in Pieces(line, limit) :: OneLine(p)
    decreases |line|
  {
    hide CutAt, Flows, Pieces;
    PiecesCut(line, limit);
    if |line| > limit {
      var c := CutAt(line, limit);
      assert OneLine(line[..c]) && OneLine(line[c..]);
      PiecesOneLine(line[c..], NEXT);
      FrontPiece(line[..c], Pieces(line[c..], NEXT));
    }
  }

  /** Folding a line without CR or LF, then unfolding, restores it, whatever
      lines follow. */
  lemma FoldThenUnfold(line: Bytes, rest: Bytes)
    requires Foldable(line) && OneLine(line) && (rest == [] || !Blank(rest[0]))
    ensures Unfold(Folded(line) + rest) == line + CRLF + Unfold(rest)
  {
    PiecesOneLine(line, FIRST);
    PiecesFit(line, FIRST);
    UnfoldText(Pieces(line, FIRST), rest);
  }

  // ---- physical lines ----

  /** Every physical line has at most 75 octets, not counting its line break;
      used octets of the current one have gone before. */
  predicate ShortLines(t: Bytes, used: nat) {
    if t == [] then true
    else if |t| >= 2 && t[0] == CR && t[1] == LF then ShortLines(t[2..], 0)
    else used < 75 && ShortLines(t[1..], used + 1)
  }

  lemma {:induction false} ShortPiece(piece: Bytes, rest: Bytes, used: nat)
    requires OneLine(piece) && used + |piece| <= 75 && ShortLines(rest, 0)
    ensures ShortLines(piece + (CRLF + rest), used)
  {
    if piece == [] {
      assert [] + (CRLF + rest) == CRLF + rest && (CRLF + rest)[2..] == rest;
    } else {
      ShortPiece(piece[1..], rest, used + 1);
      assert (piece + (CRLF + rest))[1..] == piece[1..] + (CRLF + rest);
    }
  }

  lemma SpaceFirst(tail: Bytes)
    requires ShortLines(tail, 1)
    ensures ShortLines([SPACE] + tail, 0)
  {}

  lemma {:induction false} ShortText(pieces: seq<Bytes>, rest: Bytes, used: nat)
    requires pieces != [] && (forall p | p in pieces :: OneLine(p))
    requires used <= 1 && used + |pieces[0]| <= 75 && (forall p | p in pieces[1..] :: 1 + |p| <= 75) && ShortLines(rest, 0)
    ensures ShortLines(Text(pieces) + rest, used)
  {
    hide ShortLines, OneLine;
    if |pieces| == 1 {
      ShortPiece(pieces[0], rest, used);
      assert pieces[0] + CRLF + rest == pieces[0] + (CRLF + rest);
    } else {
      var tail := Text(pieces[1..]) + rest;
      ShortText(pieces[1..], rest, 1);
      SpaceFirst(tail);
      ShortPiece(pieces[0], [SPACE] + tail, used);
      assert pieces[0] + BREAK + Text(pieces[1..]) + rest == pieces[0] + (CRLF + ([SPACE] + tail));
    }
  }

  /** A folded line has no physical line of more than 75 octets. */
  lemma FoldedIsShort(line: Bytes, rest: Bytes)
    requires Foldable(line) && OneLine(line) && ShortLines(rest, 0)
    ensures ShortLines(Folded(line) + rest, 0)
  {
    PiecesOneLine(line, FIRST);
    PiecesFit(line, FIRST);
    ShortText(Pieces(line, FIRST), rest, 0);
  }

  // ---- escaped text ----

  /** The replacer's pairs, tried in order at each position. */
  function Escape(s: Bytes): Bytes {
    if s == [] then []
    else if s[0] == BACKSLASH || s[0] == SEMICOLON || s[0] == COMMA then [BACKSLASH, s[0]] + Escape(s[1..])
    else if |s| >= 2 && s[0] == CR && s[1] == LF then [BACKSLASH, LOWER_N] + Escape(s[2..])
    else if s[0] == CR || s[0] == LF then [BACKSLASH, LOWER_N] + Escape(s[1..])
    else [s[0]] + Escape(s[1..])
  }

  /** The TEXT values of section 3.3.11 of RFC 5545: nothing that separates
      values or lines stands bare, and a backslash starts one of five pairs. */
  predicate IsText(s: Bytes) {
    s == []
    || (s[0] !in {BACKSLASH, SEMICOLON, COMMA, CR, LF} && IsText(s[1..]))
    || (|s| >= 2 && s[0] == BACKSLASH && s[1] in {BACKSLASH, SEMICOLON, COMMA, LOWER_N, UPPER_N} && IsText(s[2..]))
  }

  /** Whatever is escaped becomes such a value. */
  lemma {:induction false} EscapeIsText(s: Bytes)
    ensures IsText(Escape(s))
  {
    if s != [] {
      EscapeIsText(s[1..]);
      if |s| >= 2 {
        EscapeIsText(s[2..]);
      }
      var n := if |s| >= 2 && s[0] == CR && s[1] == LF then 2 else 1;
      var pair := if s[0] == CR || s[0] == LF then [BACKSLASH, LOWER_N] else [BACKSLASH, s[0]];
      assert (pair + Escape(s[n..]))[2..] == Escape(s[n..]);
      assert ([s[0]] + Escape(s[1..]))[1..] == Escape(s[1..]);
    }
  }

  /** Reading escaped text back (section 3.3.11 of RFC 5545). */
  function Unescape(s: Bytes): Bytes {
    if s == [] then []
    else if s[0] == BACKSLASH && |s| >= 2 then
      [if s[1] == LOWER_N || s[1] == UPPER_N then LF else s[1]] + Unescape(s[2..])
    else [s[0]] + Unescape(s[1..])
  }

  /** Every kind of line break becomes one line feed. */
  function NewlinesAsLf(s: Bytes): Bytes {
    if s == [] then []
    else if |s| >= 2 && s[0] == CR && s[1] == LF then [LF] + NewlinesAsLf(s[2..])
    else [if s[0] == CR then LF else s[0]] + NewlinesAsLf(s[1..])
  }

  lemma UnescapePair(b: Byte, rest: Bytes)
    ensures Unescape([BACKSLASH, b] + rest) == [if b == LOWER_N || b == UPPER_N then LF else b] + Unescape(rest)
  {}

  lemma UnescapePlain(b: Byte, rest: Bytes)
    requires b != BACKSLASH
    ensures Unescape([b] + rest) == [b] + Unescape(rest)
  {}

  /** Escaped text holds no CR or LF and reads back as the original, up to the
      kind of its line breaks. */
  lemma {:induction false} EscapeThenUnescape(s: Bytes)
    ensures OneLine(Escape(s))
    ensures Unescape(Escape(s)) == NewlinesAsLf(s)
  {
    if s == [] {
    } else if s[0] == BACKSLASH || s[0] == SEMICOLON || s[0] == COMMA {
      EscapeThenUnescape(s[1..]);
      UnescapePair(s[0], Escape(s[1..]));
    } else if |s| >= 2 && s[0] == CR && s[1] == LF {
      EscapeThenUnescape(s[2..]);
      UnescapePair(LOWER_N, Escape(s[2..]));
    } else if s[0] == CR || s[0] == LF {
      EscapeThenUnescape(s[1..]);
      UnescapePair(LOWER_N, Escape(s[1..]));
    } else {
      EscapeThenUnescape(s[1..]);
      UnescapePlain(s[0], Escape(s[1..]));
    }
  }

  lemma EscapeOne(s: Bytes)
    requires s != [] && s[0] >= 0x80
    ensures Escape(s) == [s[0]] + Escape(s[1..])
  {}

  /** Octets that belong to a longer character are copied. */
  lemma {:induction false} EscapeCopies(s: Bytes, n: nat)
    requires n <= |s| && forall k | 0 <= k < n :: s[k] >= 0x80
    ensures Escape(s) == s[..n] + Escape(s[n..])
  {
    hide Escape;
    if n > 0 {
      EscapeOne(s);
      EscapeCopies(s[1..], n - 1);
      assert s[1..][n - 1..] == s[n..];
      assert s[..n] == [s[0]] + s[1..][..n - 1];
    } else {
      assert s[..0] == [] && s[0..] == s;
    }
  }

  lemma {:induction false} EscapeKeepsUtf8(s: Bytes)
    requires Utf8(s)
    ensures Utf8(Escape(s))
    decreases |s|
  {
    if s != [] {
      var n := CharLength(s);
      CharShape(s);
      if n == 1 {
        if |s| >= 2 && s[0] == CR && s[1] == LF {
          assert Utf8(s[1..]) && CharLength(s[1..]) == 1 && s[1..][1..] == s[2..];
          EscapeKeepsUtf8(s[2..]);
          PairUtf8(BACKSLASH, LOWER_N, Escape(s[2..]));
        } else {
          EscapeKeepsUtf8(s[1..]);
          PairUtf8(BACKSLASH, LOWER_N, Escape(s[1..]));
          PairUtf8(BACKSLASH, s[0], Escape(s[1..]));
          OneUtf8(s[0], Escape(s[1..]));
        }
      } else {
        EscapeCopies(s, n);
        EscapeKeepsUtf8(s[n..]);
        CharPrefix(s, []);
        assert s[..n][n..] == [];
        Utf8Concat(s[..n], Escape(s[n..]));
      }
    }
  }

  lemma OneUtf8(b: Byte, rest: Bytes)
    requires b < 0x80 && Utf8(rest)
    ensures Utf8([b] + rest)
  {}

  lemma PairUtf8(a: Byte, b: Byte, rest: Bytes)
    requires a < 0x80 && b < 0x80 && Utf8(rest)
    ensures Utf8([a, b] + rest)
  {}
}
