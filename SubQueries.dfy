/**
 * `SubQuery` of the HQL code-completion support: the token stream of one
 * (sub)query and the scan that pulls the entity names and aliases out of
 * its from clause and joins.
 */
module SubQueries {
  import opened JavaLang

  /**
   * The HQL lexer's token types that the scan distinguishes; every other
   * token type is `OtherToken`. `Eof` is the lexer's end-of-file type.
   */
  datatype TokenType =
    | From | Update | Delete
    | Order | Where | Group | Having | Set
    | Inner | Outer | Left | Right | Join
    | Comma | Dot | Identifier | Eof
    | OtherToken(code: int)

  datatype EntityNameReference = EntityNameReference(entityName: string, alias: string)

  /** Tokens that end the from part of the scan. */
  predicate EndsFromPart(t: TokenType)
  {
    t.Order? || t.Where? || t.Group? || t.Having? || t.Set?
  }

  /** Tokens that end the join part of the scan (`SET` does not). */
  predicate EndsJoinPart(t: TokenType)
  {
    t.Order? || t.Where? || t.Group? || t.Having?
  }

  /** Tokens that open a new segment once the scan is in the join part. */
  predicate StartsJoinSegment(t: TokenType)
  {
    t.Inner? || t.Outer? || t.Left? || t.Right? || t.Join? || t.Comma?
  }

  /**
   * The local state of `getEntityNames`: its flags, the last token type
   * and the two `StringBuffer`s.
   */
  datatype ScanState = ScanState(
    afterFrom: bool,
    afterJoin: bool,
    cont: bool,
    lastToken: TokenType,
    tableNames: string,
    joins: string)

  const InitialScan: ScanState := ScanState(false, false, true, Eof, "", "")

  /** An identifier right after a dot continues the dotted name; any other is preceded by a space. */
  function AppendIdentifier(buffer: string, lastToken: TokenType, text: string): string
  {
    if lastToken == Dot then buffer + text else buffer + " " + text
  }

  /** A token in the join part: a terminator, a segment boundary, a dot or an identifier. */
  function JoinPartStep(st: ScanState, t: TokenType, text: string): ScanState
  {
    if EndsJoinPart(t) then st.(cont := false)
    else if StartsJoinSegment(t) then st.(joins := st.joins + ",")
    else if t.Dot? then st.(joins := st.joins + ".")
    else if t.Identifier? then st.(joins := AppendIdentifier(st.joins, st.lastToken, text))
    else st
  }

  /** A token in the from part: a terminator, a comma, a dot, an identifier or the switch to joins. */
  function FromPartStep(st: ScanState, t: TokenType, text: string): ScanState
  {
    if EndsFromPart(t) then st.(cont := false)
    else if t.Comma? then st.(tableNames := st.tableNames + ",")
    else if t.Dot? then st.(tableNames := st.tableNames + ".")
    else if t.Identifier? then st.(tableNames := AppendIdentifier(st.tableNames, st.lastToken, text))
    else if t.Join? then st.(tableNames := st.tableNames + ",", afterJoin := true)
    else st
  }

  /** The flags and buffers after one token, before the last token type is recorded. */
  function Advance(st: ScanState, t: TokenType, text: string): ScanState
  {
    if !st.afterFrom && (t.From? || t.Update? || t.Delete?) then st.(afterFrom := true)
    else if st.afterJoin then JoinPartStep(st, t, text)
    else if st.afterFrom then FromPartStep(st, t, text)
    else st
  }

  /** One iteration of the scan loop on a token of type `t` whose text is `text`. */
  function Step(st: ScanState, t: TokenType, text: string): ScanState
  {
    if !st.cont then st else Advance(st, t, text).(lastToken := t)
  }

  /** The scan loop run from state `st` over parallel token types and texts. */
  function Run(st: ScanState, ids: seq<TokenType>, texts: seq<string>): ScanState
    requires |ids| == |texts|
    decreases |ids|
  {
    if ids == [] then st else Run(Step(st, ids[0], texts[0]), ids[1..], texts[1..])
  }

  // ---------------------------------------------------------------------
  // java.util.StringTokenizer and String.trim

  /** The leading part of `s` before the first `delim`. */
  function Word(s: string, delim: char): (w: string)
    ensures |w| <= |s| && w == s[..|w|] && delim !in w
    ensures |w| < |s| ==> s[|w|] == delim
  {
    if s == [] || s[0] == delim then [] else [s[0]] + Word(s[1..], delim)
  }

  /**
   * The tokens a `StringTokenizer` with the single delimiter `delim` hands
   * out: the maximal non-empty runs of other characters, in order.
   */
  function Tokenize(s: string, delim: char): (ts: seq<string>)
    ensures forall i :: 0 <= i < |ts| ==> |ts[i]| > 0 && delim !in ts[i]
    decreases |s|
  {
    if s == [] then []
    else if s[0] == delim then Tokenize(s[1..], delim)
    else
      var w := Word(s, delim);
      [w] + Tokenize(s[|w|..], delim)
  }

  /** The pieces glued together with `delim` between them. */
  function JoinWith(pieces: seq<string>, delim: char): string
  {
    if pieces == [] then ""
    else if |pieces| == 1 then pieces[0]
    else pieces[0] + [delim] + JoinWith(pieces[1..], delim)
  }

  lemma {:induction false} WordOfJoined(w: string, rest: string, delim: char)
    requires delim !in w
    requires rest == [] || rest[0] == delim
    ensures Word(w + rest, delim) == w
  {
    if w != [] {
      assert (w + rest)[1..] == w[1..] + rest;
      WordOfJoined(w[1..], rest, delim);
    }
  }

  /** Tokenizing undoes joining, for non-empty pieces free of the delimiter. */
  lemma {:induction false} TokenizeJoinWith(pieces: seq<string>, delim: char)
    requires forall i :: 0 <= i < |pieces| ==> |pieces[i]| > 0 && delim !in pieces[i]
    ensures Tokenize(JoinWith(pieces, delim), delim) == pieces
    decreases |pieces|
  {
    if pieces == [] {
    } else if |pieces| == 1 {
      var w := pieces[0];
      WordOfJoined(w, [], delim);
      assert w + [] == w;
      assert w[|w|..] == [];
    } else {
      var w := pieces[0];
      var rest := [delim] + JoinWith(pieces[1..], delim);
      var s := JoinWith(pieces, delim);
      assert s == w + rest;
      WordOfJoined(w, rest, delim);
      assert s[|w|..] == rest;
      assert rest[1..] == JoinWith(pieces[1..], delim);
      TokenizeJoinWith(pieces[1..], delim);
      assert Tokenize(s, delim) == [w] + Tokenize(rest, delim);
    }
  }

  /** A non-empty run free of the delimiter is one token. */
  lemma {:induction false} TokenizeWord(w: string, delim: char)
    requires |w| > 0 && delim !in w
    ensures Tokenize(w, delim) == [w]
  {
    WordOfJoined(w, [], delim);
    assert w + [] == w;
    assert w[|w|..] == [];
  }

  /**
   * A delimiter splits the input: the tokens of `p`, then those of `q`.
   * With `TokenizeWord` this pins the tokens down as the maximal
   * delimiter-free runs in order, whatever leading, trailing or repeated
   * delimiters the input has.
   */
  lemma {:induction false} TokenizeSplit(p: string, q: string, delim: char)
    ensures Tokenize(p + [delim] + q, delim) == Tokenize(p, delim) + Tokenize(q, delim)
    decreases |p|
  {
    var s := p + [delim] + q;
    if p == [] {
      assert s == [delim] + q && s[1..] == q;
    } else if p[0] == delim {
      assert s[1..] == p[1..] + [delim] + q;
      TokenizeSplit(p[1..], q, delim);
    } else {
      var w := Word(p, delim);
      if |w| < |p| {
        var tail := p[|w|..];
        assert p == w + tail;
        assert s == w + (tail + [delim] + q);
        WordOfJoined(w, tail + [delim] + q, delim);
        assert s[|w|..] == tail + [delim] + q;
        TokenizeSplit(tail, q, delim);
      } else {
        assert w == p;
        assert s == w + ([delim] + q);
        WordOfJoined(w, [delim] + q, delim);
        assert s[|w|..] == [delim] + q && ([delim] + q)[1..] == q;
        TokenizeWord(p, delim);
      }
    }
  }

  /** The characters `String.trim` removes: code points up to U+0020. */
  predicate IsTrimmed(c: char)
  {
    c <= ' '
  }

  function TrimStart(s: string): (r: string)
    ensures |r| <= |s| && r == s[|s| - |r|..]
    ensures r == [] || !IsTrimmed(r[0])
    // only leading characters up to U+0020 are dropped
    ensures forall k :: 0 <= k < |s| - |r| ==> IsTrimmed(s[k])
  {
    if s != [] && IsTrimmed(s[0]) then
      var r := TrimStart(s[1..]);
      assert forall k :: 1 <= k < |s| - |r| ==> s[k] == s[1..][k - 1];
      r
    else s
  }

  function TrimEnd(s: string): (r: string)
    ensures |r| <= |s| && r == s[..|r|]
    ensures r == [] || !IsTrimmed(r[|r| - 1])
    // only trailing characters up to U+0020 are dropped
    ensures forall k :: |r| <= k < |s| ==> IsTrimmed(s[k])
  {
    if s != [] && IsTrimmed(s[|s| - 1]) then TrimEnd(s[..|s| - 1]) else s
  }

  /** `String.trim`: drop leading and trailing characters up to U+0020. */
  function Trim(s: string): (r: string)
    ensures r == [] || (!IsTrimmed(r[0]) && !IsTrimmed(r[|r| - 1]))
    ensures forall c :: c in r ==> c in s
    // r is what follows the leading trimmable characters, cut before the
    // trailing ones
    ensures var i := |s| - |TrimStart(s)|;
            && i + |r| <= |s| && r == s[i..][..|r|]
            && (forall k :: 0 <= k < i ==> IsTrimmed(s[k]))
            && (forall k :: i + |r| <= k < |s| ==> IsTrimmed(s[k]))
  {
    TrimBothEnds(s);
    TrimEnd(TrimStart(s))
  }

  /** Trimming both ends keeps a slice of `s` and drops only trimmable characters around it. */
  lemma {:induction false} TrimBothEnds(s: string)
    ensures var start := TrimStart(s);
            var r := TrimEnd(start);
            var i := |s| - |start|;
            && i + |r| <= |s| && r == s[i..][..|r|]
            && (forall c :: c in r ==> c in s)
            && (forall k :: i + |r| <= k < |s| ==> IsTrimmed(s[k]))
  {
    var start := TrimStart(s);
    var r := TrimEnd(start);
    SliceOfSuffix(s, start, r);
  }

  /** A prefix `r` of a suffix `start` of `s`, followed in `start` by trimmable characters only. */
  lemma {:induction false} SliceOfSuffix(s: string, start: string, r: string)
    requires |start| <= |s| && start == s[|s| - |start|..]
    requires |r| <= |start| && r == start[..|r|]
    requires forall k :: |r| <= k < |start| ==> IsTrimmed(start[k])
    ensures forall c :: c in r ==> c in s
    ensures forall k :: |s| - |start| + |r| <= k < |s| ==> IsTrimmed(s[k])
  {
    var i := |s| - |start|;
    forall k | i + |r| <= k < |s|
      ensures IsTrimmed(s[k])
    {
      assert s[k] == start[k - i];
    }
    forall c | c in r
      ensures c in s
    {
      var k :| 0 <= k < |r| && r[k] == c;
      assert s[i + k] == c;
    }
  }

  // ---------------------------------------------------------------------
  // addEntityReferences

  /**
   * What one comma-separated segment contributes: a one-word segment names
   * an entity used as its own alias; otherwise the first two space-separated
   * words are entity name and alias, and later words are dropped.
   */
  function SegmentReference(segment: string): seq<EntityNameReference>
  {
    var table := Trim(segment);
    if ' ' !in table && |table| > 0 then
      [EntityNameReference(table, table)]
    else
      var words := Tokenize(table, ' ');
      if |words| >= 2 then
        var entity := Trim(words[0]);
        var alias := Trim(words[1]);
        if |entity| > 0 && |alias| > 0 then [EntityNameReference(entity, alias)] else []
      else []
  }

  function SegmentReferences(segments: seq<string>): seq<EntityNameReference>
  {
    if segments == [] then []
    else SegmentReference(segments[0]) + SegmentReferences(segments[1..])
  }

  /** The references `addEntityReferences` appends for one buffer. */
  function EntityReferences(buffer: string): seq<EntityNameReference>
  {
    SegmentReferences(Tokenize(buffer, ','))
  }

  /** `getEntityNames` as a function of the token types and texts. */
  function EntityNames(ids: seq<TokenType>, texts: seq<string>): seq<EntityNameReference>
    requires |ids| == |texts|
  {
    var st := Run(InitialScan, ids, texts);
    EntityReferences(st.tableNames) + EntityReferences(st.joins)
  }

  /**
   * Appends the references of the segments of `tableNames` to `tables`
   * (the list the source passes in and adds to).
   */
  method AddEntityReferences(tables: seq<EntityNameReference>, tableNames: string)
    returns (result: seq<EntityNameReference>)
    ensures result == tables + EntityReferences(tableNames)
  {
    var segments := Tokenize(tableNames, ',');
    result := tables;
    var k := 0;
    while k < |segments|
      invariant 0 <= k <= |segments|
      invariant result + SegmentReferences(segments[k..]) == tables + SegmentReferences(segments)
    {
      assert segments[k..][1..] == segments[k + 1..];
      result := result + SegmentReference(segments[k]);
      k := k + 1;
    }
  }

  // ---------------------------------------------------------------------
  // The SubQuery object

  class SubQuery {
    var tokenIds: seq<TokenType>
    var tokenText: seq<string>
    var startOffset: Int32
    var endOffset: Int32
    var depth: Int32

    /** The two token lists are filled in parallel. */
    ghost predicate Valid()
      reads this
    {
      |tokenIds| == |tokenText|
    }

    constructor ()
      ensures Valid() && tokenIds == [] && tokenText == []
      ensures startOffset == 0 && endOffset == 0 && depth == 0
    {
      tokenIds, tokenText := [], [];
      startOffset, endOffset, depth := 0, 0, 0;
    }

    /**
     * `compareTo`: the difference of the start offsets in Java `int`
     * arithmetic. It is zero exactly for equal offsets; its sign orders the
     * offsets whenever the difference does not overflow, in particular for
     * the non-negative offsets of a query text.
     */
    function CompareTo(s: SubQuery): (r: Int32)
      reads this, s
      ensures r == 0 <==> startOffset == s.startOffset
      ensures 0 <= startOffset && 0 <= s.startOffset ==>
                (r < 0 <==> startOffset < s.startOffset) && (r > 0 <==> startOffset > s.startOffset)
    {
      Wrap32(startOffset - s.startOffset)
    }

    function TokenCount(): (n: nat)
      reads this
      ensures n == |tokenIds|
    {
      |tokenIds|
    }

    function Token(i: int): (t: TokenType)
      reads this
      requires 0 <= i < |tokenIds|
      ensures t == tokenIds[i] && t in tokenIds
    {
      tokenIds[i]
    }

    function TokenText(i: int): (text: string)
      reads this
      requires 0 <= i < |tokenText|
      ensures text == tokenText[i] && text in tokenText
    {
      tokenText[i]
    }

    /** `getEntityNames`: the from-clause references, then the join references. */
    method GetEntityNames() returns (tables: seq<EntityNameReference>)
      requires Valid()
      ensures tables == EntityNames(tokenIds, tokenText)
    {
      var afterFrom := false;
      var afterJoin := false;
      var tableNames: string := "";
      var joins: string := "";
      var i := 0;
      var cont := true;
      var lastToken := Eof;
      while i < |tokenIds|
        invariant 0 <= i <= |tokenIds|
        invariant Run(ScanState(afterFrom, afterJoin, cont, lastToken, tableNames, joins), tokenIds[i..], tokenText[i..])
                  == Run(InitialScan, tokenIds, tokenText)
      {
        var tokenType := tokenIds[i];
        if !cont {
          StoppedScanIsFinal(ScanState(afterFrom, afterJoin, cont, lastToken, tableNames, joins), tokenIds[i..], tokenText[i..]);
          break;
        }
        ghost var before := ScanState(afterFrom, afterJoin, cont, lastToken, tableNames, joins);
        ghost var next := Step(before, tokenType, tokenText[i]);
        if !afterFrom && (tokenType == From || tokenType == Update || tokenType == Delete) {
          afterFrom := true;
        } else if afterJoin {
          if EndsJoinPart(tokenType) {
            cont := false;
          } else if tokenType.Inner? || tokenType.Outer? || tokenType.Left? || tokenType.Right? || tokenType.Join? {
            joins := joins + ",";
          } else if tokenType == Comma {
            joins := joins + ",";
          } else if tokenType == Dot {
            joins := joins + ".";
          } else if tokenType == Identifier {
            if lastToken != Dot {
              joins := joins + " ";
            }
            joins := joins + tokenText[i];
          }
          assert ScanState(afterFrom, afterJoin, cont, tokenType, tableNames, joins) == next;
        } else if afterFrom {
          if EndsFromPart(tokenType) {
            cont := false;
          } else if tokenType == Comma {
            tableNames := tableNames + ",";
          } else if tokenType == Dot {
            tableNames := tableNames + ".";
          } else if tokenType == Identifier {
            if lastToken != Dot {
              tableNames := tableNames + " ";
            }
            tableNames := tableNames + tokenText[i];
          } else if tokenType == Join {
            tableNames := tableNames + ",";
            afterJoin := true;
          }
          assert ScanState(afterFrom, afterJoin, cont, tokenType, tableNames, joins) == next;
        }
        RunAt(before, tokenIds, tokenText, i);
        i := i + 1;
        lastToken := tokenType;
        assert ScanState(afterFrom, afterJoin, cont, lastToken, tableNames, joins) == next;
      }
      if i == |tokenIds| {
        assert tokenIds[i..] == [];
      }
      assert ScanState(afterFrom, afterJoin, cont, lastToken, tableNames, joins) == Run(InitialScan, tokenIds, tokenText);
      tables := [];
      tables := AddEntityReferences(tables, tableNames);
      assert tables == EntityReferences(tableNames);
      tables := AddEntityReferences(tables, joins);
    }
  }

  // ---------------------------------------------------------------------
  // Properties of the scan

  /** The scan is running and in the from part, before any JOIN. */
  predicate InFromPart(st: ScanState)
  {
    st.cont && st.afterFrom && !st.afterJoin
  }

  /** Once `cont` is false the remaining tokens are not looked at. */
  lemma {:induction false} StoppedScanIsFinal(st: ScanState, ids: seq<TokenType>, texts: seq<string>)
    requires |ids| == |texts| && !st.cont
    ensures Run(st, ids, texts) == st
    decreases |ids|
  {
    if ids != [] {
      StoppedScanIsFinal(Step(st, ids[0], texts[0]), ids[1..], texts[1..]);
    }
  }

  /** Running over a concatenation runs over the first part, then the second. */
  lemma {:induction false} RunAppend(st: ScanState, ids1: seq<TokenType>, texts1: seq<string>,
                                     ids2: seq<TokenType>, texts2: seq<string>)
    requires |ids1| == |texts1| && |ids2| == |texts2|
    ensures Run(st, ids1 + ids2, texts1 + texts2) == Run(Run(st, ids1, texts1), ids2, texts2)
    decreases |ids1|
  {
    if ids1 == [] {
      assert ids1 + ids2 == ids2 && texts1 + texts2 == texts2;
    } else {
      assert (ids1 + ids2)[1..] == ids1[1..] + ids2;
      assert (texts1 + texts2)[1..] == texts1[1..] + texts2;
      RunAppend(Step(st, ids1[0], texts1[0]), ids1[1..], texts1[1..], ids2, texts2);
    }
  }

  predicate OpensFromClause(t: TokenType)
  {
    t.From? || t.Update? || t.Delete?
  }

  /** Before the first FROM, UPDATE or DELETE only the last token type changes. */
  lemma {:induction false} PreludeOnlyMovesLastToken(lastToken: TokenType, ids: seq<TokenType>, texts: seq<string>)
    requires |ids| == |texts|
    requires forall k :: 0 <= k < |ids| ==> !OpensFromClause(ids[k])
    ensures Run(InitialScan.(lastToken := lastToken), ids, texts)
            == InitialScan.(lastToken := if ids == [] then lastToken else ids[|ids| - 1])
    decreases |ids|
  {
    if ids != [] {
      PreludeOnlyMovesLastToken(ids[0], ids[1..], texts[1..]);
    }
  }

  /** Tokens before the first FROM, UPDATE or DELETE contribute nothing to the entity names. */
  lemma {:induction false} PreludeContributesNothing(prelude: seq<TokenType>, preludeTexts: seq<string>,
                                  ids: seq<TokenType>, texts: seq<string>)
    requires |prelude| == |preludeTexts| && |ids| == |texts|
    requires forall k :: 0 <= k < |prelude| ==> !OpensFromClause(prelude[k])
    ensures EntityNames(prelude + ids, preludeTexts + texts) == EntityNames(ids, texts)
  {
    RunAppend(InitialScan, prelude, preludeTexts, ids, texts);
    PreludeOnlyMovesLastToken(Eof, prelude, preludeTexts);
    var st := InitialScan.(lastToken := if prelude == [] then Eof else prelude[|prelude| - 1]);
    if ids != [] {
      // the first token overwrites the last token type, which is all that differs
      assert Step(st, ids[0], texts[0]) == Step(InitialScan, ids[0], texts[0]);
    }
  }

  /** A from-part terminator ends the scan: later tokens add nothing to either buffer. */
  lemma {:induction false} FromTerminatorEndsScan(st: ScanState, t: TokenType, text: string,
                               ids: seq<TokenType>, texts: seq<string>)
    requires |ids| == |texts|
    requires InFromPart(st) && EndsFromPart(t)
    ensures var r := Run(st, [t] + ids, [text] + texts);
            !r.cont && r.tableNames == st.tableNames && r.joins == st.joins
  {
    assert ([t] + ids)[1..] == ids && ([text] + texts)[1..] == texts;
    StoppedScanIsFinal(Step(st, t, text), ids, texts);
  }

  /** A join-part terminator ends the scan: later tokens add nothing to either buffer. */
  lemma {:induction false} JoinTerminatorEndsScan(st: ScanState, t: TokenType, text: string,
                               ids: seq<TokenType>, texts: seq<string>)
    requires |ids| == |texts|
    requires st.cont && st.afterJoin && EndsJoinPart(t)
    ensures var r := Run(st, [t] + ids, [text] + texts);
            !r.cont && r.tableNames == st.tableNames && r.joins == st.joins
  {
    assert ([t] + ids)[1..] == ids && ([text] + texts)[1..] == texts;
    StoppedScanIsFinal(Step(st, t, text), ids, texts);
  }

  /** SET does not end the join part: it is skipped and the scan goes on. */
  lemma {:induction false} SetInJoinPartIsSkipped(st: ScanState, text: string)
    requires st.cont && st.afterFrom && st.afterJoin
    ensures Step(st, Set, text) == st.(lastToken := Set)
  {
  }

  /**
   * Segment boundaries: in the from part a COMMA opens a new segment and a
   * JOIN does too while switching to the join part; in the join part INNER,
   * OUTER, LEFT, RIGHT, JOIN and COMMA open a new join segment.
   */
  lemma {:induction false} SegmentBoundaries(st: ScanState, t: TokenType, text: string)
    requires st.cont && st.afterFrom
    ensures !st.afterJoin && t.Comma? ==>
              Step(st, t, text) == st.(tableNames := st.tableNames + ",", lastToken := t)
    ensures !st.afterJoin && t.Join? ==>
              Step(st, t, text) == st.(tableNames := st.tableNames + ",", afterJoin := true, lastToken := t)
    ensures st.afterJoin && StartsJoinSegment(t) ==>
              Step(st, t, text) == st.(joins := st.joins + ",", lastToken := t)
  {
  }

  /**
   * Names in either part: an IDENTIFIER is appended to the active buffer
   * (the joins once a JOIN was seen, the table names before), preceded by a
   * space unless it follows a DOT; a DOT appends ".". So a dotted path such
   * as `a.items` in a join stays one word, and any other identifier starts
   * a new word.
   */
  lemma {:induction false} NameTokenSteps(st: ScanState, text: string, dot: string)
    requires st.cont && st.afterFrom
    ensures st.afterJoin ==>
              Step(st, Identifier, text)
              == st.(joins := st.joins + (if st.lastToken == Dot then "" else " ") + text, lastToken := Identifier)
    ensures !st.afterJoin ==>
              Step(st, Identifier, text)
              == st.(tableNames := st.tableNames + (if st.lastToken == Dot then "" else " ") + text,
                     lastToken := Identifier)
    ensures st.afterJoin ==> Step(st, Dot, dot) == st.(joins := st.joins + ".", lastToken := Dot)
    ensures !st.afterJoin ==> Step(st, Dot, dot) == st.(tableNames := st.tableNames + ".", lastToken := Dot)
  {
    if st.lastToken == Dot {
      assert st.joins + "" == st.joins && st.tableNames + "" == st.tableNames;
    }
  }

  /**
   * A dotted name stays one word: IDENTIFIER DOT IDENTIFIER in the from
   * part adds a space, then the two names joined by the dot.
   */
  lemma {:induction false} DottedNameIsOneWord(st: ScanState, first: string, dot: string, second: string)
    requires InFromPart(st) && st.lastToken != Dot
    ensures Run(st, [Identifier, Dot, Identifier], [first, dot, second]).tableNames
            == st.tableNames + " " + first + "." + second
  {
    var st1 := st.(tableNames := st.tableNames + " " + first, lastToken := Identifier);
    var st2 := st1.(tableNames := st1.tableNames + ".", lastToken := Dot);
    var st3 := st2.(tableNames := st2.tableNames + second, lastToken := Identifier);
    assert Step(st, Identifier, first) == st1;
    assert Step(st1, Dot, dot) == st2;
    assert AppendIdentifier(st2.tableNames, st2.lastToken, second) == st3.tableNames;
    assert Step(st2, Identifier, second) == st3;
    RunCons(st2, Identifier, second, [], []);
    RunCons(st1, Dot, dot, [Identifier], [second]);
    RunCons(st, Identifier, first, [Dot, Identifier], [dot, second]);
    assert [Identifier] + [Dot, Identifier] == [Identifier, Dot, Identifier];
    assert [first] + [dot, second] == [first, dot, second];
  }

  /** Every from-part reference comes before every join reference. */
  lemma {:induction false} FromReferencesPrecedeJoinReferences(ids: seq<TokenType>, texts: seq<string>)
    requires |ids| == |texts|
    ensures var st := Run(InitialScan, ids, texts);
            var fromPart := EntityReferences(st.tableNames);
            && EntityNames(ids, texts)[..|fromPart|] == fromPart
            && EntityNames(ids, texts)[|fromPart|..] == EntityReferences(st.joins)
  {
  }

  // ---------------------------------------------------------------------
  // Segments

  /** A segment as the scan writes it: every word preceded by a space. */
  function SpacedWords(words: seq<string>): string
  {
    if words == [] then "" else " " + words[0] + SpacedWords(words[1..])
  }

  /** A word as an IDENTIFIER token spells it: non-empty, no blank or control character, no comma. */
  predicate IsWord(w: string)
  {
    |w| > 0 && forall c :: c in w ==> !IsTrimmed(c) && c != ','
  }

  lemma {:induction false} SpacedWordsIsSpaceThenJoined(words: seq<string>)
    requires words != []
    ensures SpacedWords(words) == " " + JoinWith(words, ' ')
    decreases |words|
  {
    if |words| > 1 {
      SpacedWordsIsSpaceThenJoined(words[1..]);
    }
  }

  lemma Associative(a: string, b: string, c: string)
    ensures a + b + c == a + (b + c)
  {
  }

  /** The scan from position `i` is the step on token `i`, then the scan from `i + 1`. */
  lemma {:induction false} RunAt(st: ScanState, ids: seq<TokenType>, texts: seq<string>, i: int)
    requires |ids| == |texts| && 0 <= i < |ids|
    ensures Run(st, ids[i..], texts[i..]) == Run(Step(st, ids[i], texts[i]), ids[i + 1..], texts[i + 1..])
  {
    assert ids[i..][1..] == ids[i + 1..];
    assert texts[i..][1..] == texts[i + 1..];
  }

  /** Running over one more token is one step, then the rest. */
  lemma {:induction false} RunCons(st: ScanState, t: TokenType, text: string, ids: seq<TokenType>, texts: seq<string>)
    requires |ids| == |texts|
    ensures Run(st, [t] + ids, [text] + texts) == Run(Step(st, t, text), ids, texts)
  {
    assert ([t] + ids)[1..] == ids && ([text] + texts)[1..] == texts;
  }

  lemma {:induction false} TrimOfWordEnds(s: string)
    requires s != [] && !IsTrimmed(s[0]) && !IsTrimmed(s[|s| - 1])
    ensures Trim(s) == s
  {
  }

  lemma {:induction false} TrimOfSpaceThenWordEnds(s: string)
    requires s != [] && !IsTrimmed(s[0]) && !IsTrimmed(s[|s| - 1])
    ensures Trim(" " + s) == s
  {
    assert (" " + s)[1..] == s;
    assert TrimStart(" " + s) == s;
    TrimOfWordEnds(s);
  }

  lemma {:induction false} TrimOfWord(w: string)
    requires IsWord(w)
    ensures Trim(w) == w
  {
    assert w[0] in w && w[|w| - 1] in w;
    TrimOfWordEnds(w);
  }

  lemma {:induction false} JoinWithEnds(words: seq<string>, delim: char)
    requires words != [] && forall i :: 0 <= i < |words| ==> IsWord(words[i])
    ensures IsWord(words[0]) && IsWord(words[|words| - 1])
    ensures var s := JoinWith(words, delim);
            s != [] && s[0] == words[0][0] && s[|s| - 1] == words[|words| - 1][|words[|words| - 1]| - 1]
    ensures forall c :: c in JoinWith(words, delim) ==> c == delim || c != ','
    decreases |words|
  {
    if |words| > 1 {
      JoinWithEnds(words[1..], delim);
      var s := JoinWith(words, delim);
      assert s == words[0] + ([delim] + JoinWith(words[1..], delim));
    }
  }

  lemma {:induction false} TrimSpacedWords(words: seq<string>)
    requires words != [] && forall i :: 0 <= i < |words| ==> IsWord(words[i])
    ensures Trim(SpacedWords(words)) == JoinWith(words, ' ')
  {
    SpacedWordsIsSpaceThenJoined(words);
    var joined := JoinWith(words, ' ');
    JoinWithEnds(words, ' ');
    TrimOfSpaceThenWordEnds(joined);
  }

  lemma {:induction false} JoinedWordsHaveSpaceIffSeveral(words: seq<string>)
    requires words != [] && forall i :: 0 <= i < |words| ==> IsWord(words[i])
    ensures ' ' in JoinWith(words, ' ') <==> |words| > 1
    decreases |words|
  {
    if |words| == 1 {
      assert ' ' !in words[0];
    } else {
      assert JoinWith(words, ' ')[|words[0]|] == ' ';
    }
  }

  /** The case split of `SegmentReference`, for a segment whose trimmed form is `table`. */
  lemma {:induction false} SegmentOfTrimmed(segment: string, table: string)
    requires Trim(segment) == table
    ensures ' ' !in table && |table| > 0 ==> SegmentReference(segment) == [EntityNameReference(table, table)]
    ensures table == [] ==> SegmentReference(segment) == []
    ensures ' ' in table ==>
              var words := Tokenize(table, ' ');
              SegmentReference(segment)
              == if |words| >= 2 && |Trim(words[0])| > 0 && |Trim(words[1])| > 0
                 then [EntityNameReference(Trim(words[0]), Trim(words[1]))]
                 else []
  {
    if table == [] {
      assert Tokenize(table, ' ') == [];
    }
  }

  /**
   * Segment conversion: no words give nothing; one word names an entity
   * that is its own alias; two or more give (first word, second word).
   */
  lemma {:induction false} SegmentOfWords(words: seq<string>)
    requires forall i :: 0 <= i < |words| ==> IsWord(words[i])
    ensures SegmentReference(SpacedWords(words))
            == if words == [] then []
               else if |words| == 1 then [EntityNameReference(words[0], words[0])]
               else [EntityNameReference(words[0], words[1])]
  {
    if words == [] {
      assert Trim("") == "";
      SegmentOfTrimmed("", "");
    } else {
      TrimSpacedWords(words);
      var table := JoinWith(words, ' ');
      SegmentOfTrimmed(SpacedWords(words), table);
      JoinedWordsHaveSpaceIffSeveral(words);
      if |words| == 1 {
        assert table == words[0];
      } else {
        assert ' ' in table;
        TokenizeJoinWith(words, ' ');
        var tokens := Tokenize(table, ' ');
        assert tokens == words;
        TrimOfWord(words[0]);
        TrimOfWord(words[1]);
        assert Trim(tokens[0]) == words[0] && Trim(tokens[1]) == words[1];
      }
    }
  }

  // ---------------------------------------------------------------------
  // A plain from clause: FROM entity alias, entity alias, ...

  datatype FromItem = FromItem(entity: string, alias: string)

  /** The tokens of `entity alias` items after the first, each preceded by a comma. */
  function MoreItemIds(items: seq<FromItem>): (ids: seq<TokenType>)
    ensures |ids| == 3 * |items|
  {
    if items == [] then [] else [Comma, Identifier, Identifier] + MoreItemIds(items[1..])
  }

  function MoreItemTexts(items: seq<FromItem>): (texts: seq<string>)
    ensures |texts| == 3 * |items|
  {
    if items == [] then [] else [",", items[0].entity, items[0].alias] + MoreItemTexts(items[1..])
  }

  /** The tokens of `e1 a1, e2 a2, ...`. */
  function ItemIds(items: seq<FromItem>): seq<TokenType>
    requires items != []
  {
    [Identifier, Identifier] + MoreItemIds(items[1..])
  }

  function ItemTexts(items: seq<FromItem>): (texts: seq<string>)
    requires items != []
    ensures |texts| == |ItemIds(items)|
  {
    [items[0].entity, items[0].alias] + MoreItemTexts(items[1..])
  }

  /** The segment the scan writes for one item. */
  function ItemSegment(item: FromItem): string
  {
    " " + item.entity + " " + item.alias
  }

  lemma {:induction false} ItemSegmentIsSpacedWords(item: FromItem)
    ensures ItemSegment(item) == SpacedWords([item.entity, item.alias])
  {
    assert [item.entity, item.alias][1..] == [item.alias];
    assert SpacedWords([item.alias]) == " " + item.alias + SpacedWords([]);
  }

  function ItemSegments(items: seq<FromItem>): (segments: seq<string>)
    ensures |segments| == |items|
    ensures forall i :: 0 <= i < |items| ==> segments[i] == ItemSegment(items[i])
  {
    if items == [] then [] else [ItemSegment(items[0])] + ItemSegments(items[1..])
  }

  /** The segments of the items, each preceded by a comma. */
  function CommaSegments(items: seq<FromItem>): string
  {
    if items == [] then "" else "," + ItemSegment(items[0]) + CommaSegments(items[1..])
  }

  function ItemReferences(items: seq<FromItem>): seq<EntityNameReference>
  {
    if items == [] then [] else [EntityNameReference(items[0].entity, items[0].alias)] + ItemReferences(items[1..])
  }

  lemma {:induction false} ScanOneItem(st: ScanState, item: FromItem)
    requires InFromPart(st) && st.lastToken != Dot
    ensures Run(st, [Identifier, Identifier], [item.entity, item.alias])
            == st.(lastToken := Identifier, tableNames := st.tableNames + ItemSegment(item))
  {
    var s1 := Step(st, Identifier, item.entity);
    assert s1 == st.(lastToken := Identifier, tableNames := st.tableNames + " " + item.entity);
    var s2 := Step(s1, Identifier, item.alias);
    assert s2 == s1.(tableNames := s1.tableNames + " " + item.alias);
    assert Run(s2, [], []) == s2;
    assert [Identifier, Identifier][1..] == [Identifier];
    assert [item.entity, item.alias][1..] == [item.alias];
  }

  /** A comma and an item append the comma and the item's segment. */
  lemma {:induction false} ScanCommaItem(st: ScanState, item: FromItem)
    requires InFromPart(st)
    ensures Run(st, [Comma, Identifier, Identifier], [",", item.entity, item.alias])
            == st.(lastToken := Identifier, tableNames := st.tableNames + "," + ItemSegment(item))
  {
    var s1 := st.(lastToken := Comma, tableNames := st.tableNames + ",");
    assert Step(st, Comma, ",") == s1;
    RunCons(st, Comma, ",", [Identifier, Identifier], [item.entity, item.alias]);
    ScanOneItem(s1, item);
  }

  /** `buffer` with a comma and the segment of each item appended in turn. */
  function AppendSegments(buffer: string, items: seq<FromItem>): string
    decreases |items|
  {
    if items == [] then buffer else AppendSegments(buffer + "," + ItemSegment(items[0]), items[1..])
  }

  lemma {:induction false} AppendSegmentsIsConcatenation(buffer: string, items: seq<FromItem>)
    ensures AppendSegments(buffer, items) == buffer + CommaSegments(items)
    decreases |items|
  {
    if items == [] {
      assert buffer + "" == buffer;
    } else {
      var segment, rest := ItemSegment(items[0]), CommaSegments(items[1..]);
      AppendSegmentsIsConcatenation(buffer + "," + segment, items[1..]);
      Associative(buffer + ",", segment, rest);
      Associative(buffer, ",", segment + rest);
      Associative(",", segment, rest);
    }
  }

  /** Scanning the later items in the from part writes their comma-preceded segments. */
  lemma {:induction false} ScanMoreItems(st: ScanState, items: seq<FromItem>)
    requires InFromPart(st) && st.lastToken == Identifier
    ensures Run(st, MoreItemIds(items), MoreItemTexts(items))
            == st.(tableNames := AppendSegments(st.tableNames, items))
    decreases |items|
  {
    if items != [] {
      var item, rest := items[0], items[1..];
      var next := st.(tableNames := st.tableNames + "," + ItemSegment(item));
      RunAppend(st, [Comma, Identifier, Identifier], [",", item.entity, item.alias],
                MoreItemIds(rest), MoreItemTexts(rest));
      ScanCommaItem(st, item);
      ScanMoreItems(next, rest);
    }
  }

  /** The joined segments are the first segment followed by the others, each after a comma. */
  lemma {:induction false} JoinedSegments(items: seq<FromItem>)
    requires items != []
    ensures JoinWith(ItemSegments(items), ',') == ItemSegment(items[0]) + CommaSegments(items[1..])
    decreases |items|
  {
    if |items| > 1 {
      JoinedSegments(items[1..]);
      assert ItemSegments(items)[1..] == ItemSegments(items[1..]);
    }
  }

  /** Scanning the items in the from part writes their segments separated by commas. */
  lemma {:induction false} ScanItems(st: ScanState, items: seq<FromItem>)
    requires items != []
    requires InFromPart(st) && st.lastToken != Dot
    ensures Run(st, ItemIds(items), ItemTexts(items))
            == st.(lastToken := Identifier, tableNames := st.tableNames + JoinWith(ItemSegments(items), ','))
  {
    var item, rest := items[0], items[1..];
    var first := st.(lastToken := Identifier, tableNames := st.tableNames + ItemSegment(item));
    RunAppend(st, [Identifier, Identifier], [item.entity, item.alias], MoreItemIds(rest), MoreItemTexts(rest));
    ScanOneItem(st, item);
    ScanMoreItems(first, rest);
    AppendSegmentsIsConcatenation(first.tableNames, rest);
    JoinedSegments(items);
    Associative(st.tableNames, ItemSegment(item), CommaSegments(rest));
  }

  lemma {:induction false} ReferencesOfItemSegments(items: seq<FromItem>)
    requires forall i :: 0 <= i < |items| ==> IsWord(items[i].entity) && IsWord(items[i].alias)
    ensures SegmentReferences(ItemSegments(items)) == ItemReferences(items)
    decreases |items|
  {
    if items != [] {
      SegmentOfWords([items[0].entity, items[0].alias]);
      ItemSegmentIsSpacedWords(items[0]);
      assert ItemSegments(items)[1..] == ItemSegments(items[1..]);
      ReferencesOfItemSegments(items[1..]);
    }
  }

  /** The buffers after `FROM e1 a1, e2 a2, ...` and an optional from-part terminator with its tail. */
  lemma {:induction false} PlainFromClauseBuffers(items: seq<FromItem>, fromText: string, tail: seq<TokenType>, tailTexts: seq<string>)
    requires items != []
    requires |tail| == |tailTexts|
    requires tail == [] || EndsFromPart(tail[0])
    ensures var st := Run(InitialScan, [From] + ItemIds(items) + tail, [fromText] + ItemTexts(items) + tailTexts);
            st.tableNames == JoinWith(ItemSegments(items), ',') && st.joins == ""
  {
    var ids, texts := [From] + ItemIds(items), [fromText] + ItemTexts(items);
    var st0 := InitialScan.(afterFrom := true, lastToken := From);
    var joined := JoinWith(ItemSegments(items), ',');
    var st := st0.(lastToken := Identifier, tableNames := joined);
    assert Step(InitialScan, From, fromText) == st0;
    RunCons(InitialScan, From, fromText, ItemIds(items), ItemTexts(items));
    ScanItems(st0, items);
    assert st0.tableNames + joined == joined;
    assert Run(InitialScan, ids, texts) == st;
    RunAppend(InitialScan, ids, texts, tail, tailTexts);
    if tail != [] {
      assert tail == [tail[0]] + tail[1..] && tailTexts == [tailTexts[0]] + tailTexts[1..];
      FromTerminatorEndsScan(st, tail[0], tailTexts[0], tail[1..], tailTexts[1..]);
    } else {
      assert tail == [] && tailTexts == [];
      assert Run(st, tail, tailTexts) == st;
    }
  }

  lemma {:induction false} ItemSegmentHasNoComma(item: FromItem)
    requires IsWord(item.entity) && IsWord(item.alias)
    ensures |ItemSegment(item)| > 0 && ',' !in ItemSegment(item)
  {
    assert ItemSegment(item) == " " + item.entity + (" " + item.alias);
  }

  /** The from buffer of plain items converts back to exactly those items. */
  lemma {:induction false} ReferencesOfJoinedItems(items: seq<FromItem>)
    requires items != []
    requires forall i :: 0 <= i < |items| ==> IsWord(items[i].entity) && IsWord(items[i].alias)
    ensures EntityReferences(JoinWith(ItemSegments(items), ',')) == ItemReferences(items)
  {
    var segments := ItemSegments(items);
    forall i | 0 <= i < |segments| ensures |segments[i]| > 0 && ',' !in segments[i] {
      ItemSegmentHasNoComma(items[i]);
    }
    TokenizeJoinWith(segments, ',');
    ReferencesOfItemSegments(items);
  }

  /**
   * End to end: for `FROM e1 a1, e2 a2, ...` made of plain words, optionally
   * followed by a from-part terminator and anything after it, the entity
   * names are exactly the (entity, alias) pairs, in order.
   */
  lemma {:induction false} PlainFromClause(items: seq<FromItem>, fromText: string, tail: seq<TokenType>, tailTexts: seq<string>)
    requires items != []
    requires forall i :: 0 <= i < |items| ==> IsWord(items[i].entity) && IsWord(items[i].alias)
    requires |tail| == |tailTexts|
    requires tail == [] || EndsFromPart(tail[0])
    ensures EntityNames([From] + ItemIds(items) + tail, [fromText] + ItemTexts(items) + tailTexts)
            == ItemReferences(items)
  {
    PlainFromClauseBuffers(items, fromText, tail, tailTexts);
    ReferencesOfJoinedItems(items);
    assert Tokenize("", ',') == [];
    assert EntityReferences("") == [];
  }
}
