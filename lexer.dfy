/**
 * The lexer the parsers consume tokens from. It wraps a scanner and keeps the
 * current token, a buffer collecting `#` comments and the description mode.
 *
 * The scanner itself (Go's `text/scanner`) is not part of this model. It is
 * given as a table: `steps[p]` is what a call to `Scan` started at character
 * offset `p` reports (the token class, its text, its position, the offset
 * just after it and, for string tokens, the unquoted value) or the error it
 * raises. Reading single characters (`Next`, `Peek`) works on the source
 * text directly.
 *
 * Go panics become explicit outcomes: `Syntax` for the lexer's own syntax
 * errors, `Panic` for every other panic, which `CatchSyntaxError` re-raises.
 */
module Lexer {
  import opened Wrappers
  import opened Ast
  import BlockString

  datatype ScanStep =
    | Scanned(kind: Kind, text: string, loc: Location, unquoted: Option<string>, stop: nat)
    | ScanFailed(message: string, loc: Location)

  datatype Input = Input(src: string, steps: seq<ScanStep>, useStringDescriptions: bool)

  /** A scan that does not reach the end of the input moves past at least one character. */
  predicate StepOk(inp: Input, p: nat)
    requires p < |inp.steps|
  {
    match inp.steps[p]
    case Scanned(kind, _, _, _, stop) =>
      if kind == EOF then stop == |inp.src| else p < stop <= |inp.src|
    case ScanFailed(_, _) => true
  }

  predicate WellFormed(inp: Input) {
    && |inp.steps| == |inp.src| + 1
    && forall p :: 0 <= p < |inp.steps| ==> StepOk(inp, p)
  }

  /**
   * The lexer's state: the scanner's offset and the position and text of the
   * last token it scanned, the lexer's `next` token and its comment buffer.
   */
  datatype LexState = LexState(
    off: nat,
    pos: Location,
    text: string,
    unquoted: Option<string>,
    next: Kind,
    comment: string)

  predicate InRange(inp: Input, s: LexState) {
    WellFormed(inp) && s.off <= |inp.src|
  }

  datatype Abort = Syntax(message: string) | Panic(message: string)

  datatype Outcome = Pass | Fail(reason: Abort)

  /**
   * A measure every successful `ConsumeToken` of a real token decreases: twice
   * the unread characters, plus one while the current token is not EOF.
   */
  function Remaining(inp: Input, s: LexState): nat
    requires s.off <= |inp.src|
  {
    2 * (|inp.src| - s.off) + (if s.next == EOF then 0 else 1)
  }

  /** `%q` formatting, without Go's escaping of special characters. */
  function Quote(t: string): string {
    "\"" + t + "\""
  }

  /** How the scanner names a token class in messages. */
  function TokenString(k: Kind): string {
    match k
    case EOF => "EOF"
    case Ident => "Ident"
    case Int => "Int"
    case Float => "Float"
    case CharLiteral => "Char"
    case String => "String"
    case RawString => "RawString"
    case Char(c) => Quote([c])
  }

  // ---------------------------------------------------------------------------
  // The character stream

  function RuneAt(src: string, off: nat): Kind {
    if off < |src| then Char(src[off]) else EOF
  }

  function After(src: string, off: nat): nat {
    if off < |src| then off + 1 else off
  }

  /** The character a rune is written as; EOF is written as U+FFFD. */
  function RuneChar(r: Kind): char {
    match r
    case Char(c) => c
    case _ => '\U{FFFD}'
  }

  /**
   * The scanner reads one character ahead: a `Next` at `p` returns `src[p]`
   * and reads `src[p + 1]`, and reading a NUL there is a scanner error.
   */
  predicate NulAhead(src: string, p: nat) {
    p + 1 < |src| && src[p + 1] == '\0'
  }

  /** The error the scanner's handler raises for a NUL. */
  const NulError := Syntax("invalid character NUL")

  /**
   * The position a single-character read leaves: the scanner's `Next`
   * invalidates the line of the last token (sets it to 0) and keeps its column.
   */
  function LineCleared(p: Location): Location {
    p.(line := 0)
  }

  /** The first offset in `[lo, hi)` whose `Next` reads a NUL ahead, or `hi` when there is none. */
  function FirstNul(src: string, lo: nat, hi: nat): (p: nat)
    requires lo <= hi
    ensures lo <= p <= hi
    decreases hi - lo
  {
    if lo == hi || NulAhead(src, lo) then lo else FirstNul(src, lo + 1, hi)
  }

  /** `FirstNul` finds the first read that meets a NUL, and there is none before it. */
  lemma {:induction false} FirstNulFinds(src: string, lo: nat, hi: nat)
    requires lo <= hi
    ensures var p := FirstNul(src, lo, hi);
      && (p < hi ==> NulAhead(src, p))
      && NoNulRead(src, lo, p)
    decreases hi - lo
  {
    if lo < hi && !NulAhead(src, lo) {
      FirstNulFinds(src, lo + 1, hi);
    }
  }

  /** No `Next` at an offset in `[lo, hi)` reads a NUL ahead. */
  predicate NoNulRead(src: string, lo: nat, hi: nat) {
    forall k :: lo <= k < hi ==> !NulAhead(src, k)
  }

  /** The scanner's `Scan`: an error aborts with the position of the failed token. */
  function ScanOnce(inp: Input, s: LexState): (r: (Outcome, LexState))
    requires InRange(inp, s)
    ensures InRange(inp, r.1)
    ensures r.0.Pass? ==> (r.1.next == EOF && r.1.off == |inp.src|) || r.1.off > s.off
    ensures r.0.Fail? ==> r.0.reason.Syntax? && r.1 == s.(pos := r.1.pos)
  {
    assert StepOk(inp, s.off);
    match inp.steps[s.off]
    case Scanned(kind, text, loc, unquoted, stop) =>
      (Pass, s.(off := stop, pos := loc, text := text, unquoted := unquoted, next := kind))
    case ScanFailed(message, loc) =>
      (Fail(Syntax(message)), s.(pos := loc))
  }

  // ---------------------------------------------------------------------------
  // Comments and insignificant tokens

  /** The end of the line starting at `i`: the first '\r' or '\n', or the end of the text. */
  function LineEnd(src: string, i: nat): (j: nat)
    requires i <= |src|
    ensures i <= j <= |src|
    ensures forall k :: i <= k < j ==> src[k] != '\r' && src[k] != '\n'
    ensures j < |src| ==> src[j] == '\r' || src[j] == '\n'
    decreases |src| - i
  {
    if i == |src| || src[i] == '\r' || src[i] == '\n' then i else LineEnd(src, i + 1)
  }

  /**
   * `consumeComment`: after the `#` token, drops one space, separates this
   * comment from an earlier one with '\n', and appends the rest of the line;
   * the line terminator is consumed but not kept.
   */
  function Comment(inp: Input, s: LexState): (r: (Outcome, LexState))
    requires InRange(inp, s)
    ensures InRange(inp, r.1) && r.1.off >= s.off
    ensures s.next == Char('#') ==> r.1.pos == LineCleared(s.pos)
  {
    if s.next != Char('#') then (Fail(Panic("consumeComment used in wrong context")), s)
    else if RuneAt(inp.src, s.off) == Char(' ') && NulAhead(inp.src, s.off) then
      (Fail(NulError), s.(off := s.off + 1, pos := LineCleared(s.pos)))
    else
      var i := if RuneAt(inp.src, s.off) == Char(' ') then s.off + 1 else s.off;
      var sep := if |s.comment| > 0 then "\n" else "";
      var l := CommentLoop(inp.src, i, s.comment + sep);
      (l.0, s.(off := l.1, pos := LineCleared(s.pos), comment := l.2))
  }

  /**
   * The reading loop of `consumeComment`: each character before a line
   * terminator or the end of the input is appended to `buf`; the terminator
   * is read but not kept. A NUL read ahead stops the loop with the
   * scanner's error, keeping what was appended before it.
   */
  function CommentLoop(src: string, off: nat, buf: string): (r: (Outcome, nat, string))
    requires off <= |src|
    ensures off <= r.1 <= |src|
    decreases |src| - off
  {
    if NulAhead(src, off) then (Fail(NulError), off + 1, buf)
    else if off == |src| || src[off] == '\r' || src[off] == '\n' then (Pass, After(src, off), buf)
    else CommentLoop(src, off + 1, buf + [src[off]])
  }

  /** The scanning loop of `ConsumeWhitespace`, once the buffer is cleared. */
  function SkipInsignificant(inp: Input, s: LexState): (r: (Outcome, LexState))
    requires InRange(inp, s)
    ensures InRange(inp, r.1)
    decreases |inp.src| - s.off
  {
    var sc := ScanOnce(inp, s);
    if sc.0.Fail? then sc
    else if sc.1.next == Char(',') then SkipInsignificant(inp, sc.1)
    else if sc.1.next == Char('#') then
      var c := Comment(inp, sc.1);
      if c.0.Fail? then c else SkipInsignificant(inp, c.1)
    else sc
  }

  /** `ConsumeWhitespace`. */
  function Whitespace(inp: Input, s: LexState): (r: (Outcome, LexState))
    requires InRange(inp, s)
    ensures InRange(inp, r.1)
  {
    SkipInsignificant(inp, s.(comment := ""))
  }

  // ---------------------------------------------------------------------------
  // Descriptions

  datatype Quoted = Quoted(off: nat, buf: string, quotes: nat, last: Kind)

  /**
   * The reading loop of `consumeTripleQuoteComment`: every rune read is
   * appended to the buffer, counting the run of '"' it ends with, until that
   * run reaches three or the input ends.
   */
  function QuoteLoop(src: string, off: nat, buf: string, quotes: nat): (q: Quoted)
    requires off <= |src| && quotes <= |buf|
    ensures off <= q.off <= |src|
    ensures q.quotes <= |q.buf|
    ensures q.quotes == 3 || q.last == EOF
    decreases |src| - off
  {
    var r := RuneAt(src, off);
    var quotes' := if r == Char('"') then quotes + 1 else 0;
    var buf' := buf + [RuneChar(r)];
    if quotes' == 3 || r == EOF then Quoted(After(src, off), buf', quotes', r)
    else QuoteLoop(src, off + 1, buf', quotes')
  }

  /** `consumeTripleQuoteComment`, entered with the scanner just before the third quote. */
  function TripleQuote(inp: Input, s: LexState): (r: (Result<string, Abort>, LexState))
    requires InRange(inp, s)
    ensures InRange(inp, r.1) && r.1.off >= s.off
    ensures r.1.pos == LineCleared(s.pos)
  {
    var first := RuneAt(inp.src, s.off);
    var s1 := s.(off := After(inp.src, s.off), pos := LineCleared(s.pos), next := first);
    if NulAhead(inp.src, s.off) then (Failure(NulError), s.(off := s.off + 1, pos := LineCleared(s.pos)))
    else if first != Char('"') then
      (Failure(Panic("consumeTripleQuoteComment used in wrong context: no third quote?")), s1)
    else
      var q := QuoteLoop(inp.src, s1.off, "", 0);
      var p := FirstNul(inp.src, s1.off, q.off);
      if p < q.off then (Failure(NulError), s1.(off := p + 1, next := RuneAt(inp.src, p - 1)))
      else (Success(BlockString.BlockStringValue(BlockText(inp.src, s.off))), s1.(off := q.off, next := q.last))
  }

  /** The raw text of a block string: what the reading loop kept, less the closing quotes. */
  function BlockText(src: string, off: nat): string
    requires off <= |src|
  {
    var q := QuoteLoop(src, After(src, off), "", 0);
    q.buf[..|q.buf| - q.quotes]
  }

  /**
   * `consumeDescription`: a string token is read as a description (a block
   * string when the scanner stopped in front of a third quote) and the
   * whitespace after it is consumed; any other token is left alone.
   */
  function Description(inp: Input, s: LexState): (r: (Result<string, Abort>, LexState))
    requires InRange(inp, s)
    ensures InRange(inp, r.1)
    ensures s.next != String ==> r == (Success(""), s)
  {
    if s.next != String then (Success(""), s)
    else
      var d :=
        if RuneAt(inp.src, s.off) == Char('"') then TripleQuote(inp, s)
        else if s.unquoted.None? then (Failure(Panic("invalid syntax")), s)
        else (Success(s.unquoted.value), s);
      if d.0.Failure? then d
      else
        var w := Whitespace(inp, d.1);
        if w.0.Fail? then (Failure(w.0.reason), w.1) else (Success(d.0.value), w.1)
  }

  /**
   * A string token found where a description may stand is read as one: a
   * block string when the scanner stopped in front of a third quote, and
   * otherwise the token's unquoted text, whose absence is a panic. The
   * whitespace and comments after it are consumed with a fresh buffer, and
   * their failure is the description's failure.
   */
  lemma DescriptionReads(inp: Input, s: LexState)
    requires InRange(inp, s) && s.next == String
    ensures var r := Description(inp, s);
      var d :=
        if RuneAt(inp.src, s.off) == Char('"') then TripleQuote(inp, s)
        else if s.unquoted.None? then (Failure(Panic("invalid syntax")), s)
        else (Success(s.unquoted.value), s);
      var w := Whitespace(inp, d.1.(comment := ""));
      && (r.0.Success? <==> d.0.Success? && w.0.Pass?)
      && (d.0.Failure? ==> r == d)
      && (d.0.Success? && w.0.Fail? ==> r == (Failure(w.0.reason), w.1))
      && (r.0.Success? ==> r.0.value == d.0.value && r.1 == w.1)
      && (r.0.Success? && RuneAt(inp.src, s.off) == Char('"') ==>
            r.0.value == BlockString.BlockStringValue(BlockText(inp.src, s.off)))
      && (r.0.Success? && RuneAt(inp.src, s.off) != Char('"') ==> s.unquoted == Some(r.0.value))
  {
    var d :=
      if RuneAt(inp.src, s.off) == Char('"') then TripleQuote(inp, s)
      else if s.unquoted.None? then (Failure(Panic("invalid syntax")), s)
      else (Success(s.unquoted.value), s);
    WhitespaceForgetsComment(inp, d.1, "");
    if RuneAt(inp.src, s.off) == Char('"') {
      TripleQuoteReads(inp, s);
    }
  }

  /**
   * `DescComment`: the comment buffer as it was on entry, or the string
   * description in string-description mode; a description is consumed either way.
   */
  function DescCommentOf(inp: Input, s: LexState): (r: (Result<string, Abort>, LexState))
    requires InRange(inp, s)
    ensures InRange(inp, r.1)
    ensures r.1 == Description(inp, s).1
    ensures r.0.Success? <==> Description(inp, s).0.Success?
    ensures r.0.Success? && !inp.useStringDescriptions ==> r.0.value == s.comment
    ensures r.0.Success? && inp.useStringDescriptions ==> r.0.value == Description(inp, s).0.value
    ensures s.next != String ==> r == (Success(if inp.useStringDescriptions then "" else s.comment), s)
  {
    var d := Description(inp, s);
    if d.0.Failure? then d
    else (Success(if inp.useStringDescriptions then d.0.value else s.comment), d.1)
  }

  // ---------------------------------------------------------------------------
  // Tokens

  function Unexpected(text: string, expecting: string): Abort {
    Syntax("unexpected " + Quote(text) + ", expecting " + expecting)
  }

  /** `ConsumeToken`: advance past the current token when it is of the expected class. */
  function TokenConsumed(inp: Input, s: LexState, expected: Kind): (r: (Outcome, LexState))
    requires InRange(inp, s)
    ensures InRange(inp, r.1)
    ensures s.next != expected ==> r == (Fail(Unexpected(s.text, TokenString(expected))), s)
    ensures r.0.Pass? ==> s.next == expected
    ensures r.0.Pass? && expected != EOF ==> Remaining(inp, r.1) < Remaining(inp, s)
  {
    if s.next != expected then (Fail(Unexpected(s.text, TokenString(expected))), s)
    else
      WhitespaceAdvances(inp, s.(comment := ""));
      Whitespace(inp, s)
  }

  /** `ConsumeKeyword`: like `ConsumeToken`, for an identifier with the given text. */
  function KeywordConsumed(inp: Input, s: LexState, keyword: string): (r: (Outcome, LexState))
    requires InRange(inp, s)
    ensures InRange(inp, r.1)
    ensures s.next != Kind.Ident || s.text != keyword ==> r == (Fail(Unexpected(s.text, Quote(keyword))), s)
    ensures r.0.Pass? ==> s.next == Kind.Ident && s.text == keyword && Remaining(inp, r.1) < Remaining(inp, s)
  {
    if s.next != Kind.Ident || s.text != keyword then (Fail(Unexpected(s.text, Quote(keyword))), s)
    else
      WhitespaceAdvances(inp, s.(comment := ""));
      Whitespace(inp, s)
  }

  /** `ConsumeIdent`: the text of the current token, which must be an identifier. */
  function IdentConsumed(inp: Input, s: LexState): (r: (Result<string, Abort>, LexState))
    requires InRange(inp, s)
    ensures InRange(inp, r.1)
    ensures r.0.Success? ==> s.next == Kind.Ident && Remaining(inp, r.1) < Remaining(inp, s)
    ensures r.0.Success? ==> r.0.value == s.text
    ensures s.next != Kind.Ident ==> r == (Failure(Unexpected(s.text, "Ident")), s)
  {
    var c := TokenConsumed(inp, s, Kind.Ident);
    if c.0.Fail? then (Failure(c.0.reason), c.1) else (Success(s.text), c.1)
  }

  /**
   * `ConsumeIdentWithLoc`: the identifier's text with the location the lexer
   * held before advancing past it.
   */
  function IdentWithLocConsumed(inp: Input, s: LexState): (r: (Result<Ident, Abort>, LexState))
    requires InRange(inp, s)
    ensures InRange(inp, r.1)
    ensures r.0.Success? ==> s.next == Kind.Ident && Remaining(inp, r.1) < Remaining(inp, s)
    ensures r.0.Success? ==> r.0.value == Ident.Ident(s.text, s.pos)
    ensures s.next != Kind.Ident ==> r == (Failure(Unexpected(s.text, "Ident")), s)
  {
    var c := TokenConsumed(inp, s, Kind.Ident);
    if c.0.Fail? then (Failure(c.0.reason), c.1) else (Success(Ident.Ident(s.text, s.pos)), c.1)
  }

  /** `ConsumeLiteral`: the current token as a primitive value (with no location yet), whatever its class. */
  function LiteralConsumed(inp: Input, s: LexState): (r: (Result<Value, Abort>, LexState))
    requires InRange(inp, s)
    ensures InRange(inp, r.1)
    ensures r.0.Success? ==> r.0.value == Primitive(s.next, s.text, Location(0, 0))
    ensures r.0.Success? ==> Remaining(inp, r.1) <= Remaining(inp, s)
    ensures r.0.Success? && s.next != EOF ==> Remaining(inp, r.1) < Remaining(inp, s)
  {
    WhitespaceAdvances(inp, s.(comment := ""));
    var w := Whitespace(inp, s);
    if w.0.Fail? then (Failure(w.0.reason), w.1)
    else (Success(Primitive(s.next, s.text, Location(0, 0))), w.1)
  }

  // ---------------------------------------------------------------------------
  // Catching syntax errors

  datatype Caught = NoError | Reported(error: QueryError) | Rethrown(panic: string)

  /**
   * `CatchSyntaxError`: a syntax error becomes a query error prefixed
   * "syntax error: " at the lexer's location when it was raised; any other
   * panic is raised again.
   */
  function CatchSyntaxError(o: Outcome, at: Location): (c: Caught)
    ensures o.Pass? <==> c.NoError?
    ensures o.Fail? && o.reason.Syntax? <==> c.Reported?
    ensures c.Reported? ==> c.error == QueryError("syntax error: " + o.reason.message, "", [at])
    ensures c.Rethrown? ==> o == Fail(Panic(c.panic))
  {
    match o
    case Pass => NoError
    case Fail(Syntax(m)) => Reported(QueryError("syntax error: " + m, "", [at]))
    case Fail(Panic(m)) => Rethrown(m)
  }

  // ---------------------------------------------------------------------------
  // Properties

  /** Consuming whitespace that succeeds moves past at least one character, or ends at EOF. */
  lemma {:induction false} SkipAdvances(inp: Input, s: LexState)
    requires InRange(inp, s)
    ensures var r := SkipInsignificant(inp, s);
      r.0.Pass? ==> (r.1.next == EOF && r.1.off == |inp.src|) || r.1.off > s.off
    decreases |inp.src| - s.off
  {
    var sc := ScanOnce(inp, s);
    if sc.0.Pass? && sc.1.next == Char(',') {
      SkipAdvances(inp, sc.1);
    } else if sc.0.Pass? && sc.1.next == Char('#') {
      var c := Comment(inp, sc.1);
      if c.0.Pass? {
        SkipAdvances(inp, c.1);
      }
    }
  }

  lemma WhitespaceAdvances(inp: Input, s: LexState)
    requires InRange(inp, s)
    ensures var r := SkipInsignificant(inp, s);
      r.0.Pass? ==> (r.1.next == EOF && r.1.off == |inp.src|) || r.1.off > s.off
  {
    SkipAdvances(inp, s);
  }

  /** Consuming whitespace that succeeds stops on a token that is neither ',' nor '#'. */
  lemma {:induction false} SkipStops(inp: Input, s: LexState)
    requires InRange(inp, s)
    ensures var r := SkipInsignificant(inp, s);
      r.0.Pass? ==> r.1.next != Char(',') && r.1.next != Char('#')
    decreases |inp.src| - s.off
  {
    var sc := ScanOnce(inp, s);
    if sc.0.Pass? && sc.1.next == Char(',') {
      SkipStops(inp, sc.1);
    } else if sc.0.Pass? && sc.1.next == Char('#') {
      var c := Comment(inp, sc.1);
      if c.0.Pass? {
        SkipStops(inp, c.1);
      }
    }
  }

  /**
   * Consuming whitespace first clears the comment buffer: whatever the buffer
   * held before has no influence on the result.
   */
  lemma WhitespaceForgetsComment(inp: Input, s: LexState, old_comment: string)
    requires InRange(inp, s)
    ensures Whitespace(inp, s) == Whitespace(inp, s.(comment := old_comment))
  {
    assert s.(comment := "") == s.(comment := old_comment).(comment := "");
  }

  /**
   * A comment keeps what the buffer held, adds '\n' exactly when the buffer
   * was not empty, and then appends the source text that follows the `#`
   * (one space after it dropped) up to, not including, the first '\r' or
   * '\n' or the end of the input; the scanner ends up past that terminator.
   */
  lemma CommentAppendsLine(inp: Input, s: LexState)
    requires InRange(inp, s) && s.next == Char('#')
    ensures var r := Comment(inp, s);
      var sep := if |s.comment| > 0 then 1 else 0;
      var i := if s.off < |inp.src| && inp.src[s.off] == ' ' then s.off + 1 else s.off;
      && (r.0.Pass? <==> NoNulRead(inp.src, s.off, After(inp.src, LineEnd(inp.src, i))))
      && (r.0.Pass? ==>
        && |s.comment| + sep <= |r.1.comment|
        && r.1.comment[..|s.comment|] == s.comment
        && (sep == 1 ==> r.1.comment[|s.comment|] == '\n')
        && var line := r.1.comment[|s.comment| + sep..];
           && i + |line| <= |inp.src|
           && line == inp.src[i..i + |line|]
           && (forall k :: 0 <= k < |line| ==> line[k] != '\n' && line[k] != '\r')
           && (i + |line| == |inp.src| || inp.src[i + |line|] == '\n' || inp.src[i + |line|] == '\r')
           && r.1.off == if i + |line| < |inp.src| then i + |line| + 1 else |inp.src|)
  {
    var i := if s.off < |inp.src| && inp.src[s.off] == ' ' then s.off + 1 else s.off;
    var j := LineEnd(inp.src, i);
    var sep := if |s.comment| > 0 then "\n" else "";
    var p := FirstNul(inp.src, s.off, After(inp.src, j));
    FirstNulFinds(inp.src, s.off, After(inp.src, j));
    CommentIs(inp, s, i, j, sep, p);
    var r := Comment(inp, s);
    if p == After(inp.src, j) {
      CommentText(s.comment, |sep|, inp.src, i, r.1.comment, r.1.off);
    }
  }

  /**
   * A comment fails exactly when one of the characters it reads is followed
   * by a NUL: the scanner's error becomes a syntax error, raised by the
   * first such read, and the offset is past the NUL.
   */
  lemma NulEndsComment(inp: Input, s: LexState)
    requires InRange(inp, s) && s.next == Char('#')
    ensures var r := Comment(inp, s);
      var i := if s.off < |inp.src| && inp.src[s.off] == ' ' then s.off + 1 else s.off;
      var e := After(inp.src, LineEnd(inp.src, i));
      && (r.0.Fail? <==> !NoNulRead(inp.src, s.off, e))
      && (r.0.Fail? ==>
            && r.0.reason == NulError
            && s.off < r.1.off <= e
            && NulAhead(inp.src, r.1.off - 1)
            && NoNulRead(inp.src, s.off, r.1.off - 1)
            && |s.comment| <= |r.1.comment|
            && r.1.comment[..|s.comment|] == s.comment)
  {
    var i := if s.off < |inp.src| && inp.src[s.off] == ' ' then s.off + 1 else s.off;
    var j := LineEnd(inp.src, i);
    var sep := if |s.comment| > 0 then "\n" else "";
    var p := FirstNul(inp.src, s.off, After(inp.src, j));
    FirstNulFinds(inp.src, s.off, After(inp.src, j));
    CommentIs(inp, s, i, j, sep, p);
    var r := Comment(inp, s);
    NulStop(inp.src, s.off, After(inp.src, j), p, r.0.Fail?, r.1.off);
    if r.0.Fail? {
      PrefixKept(s.comment, sep, if p < i then [] else inp.src[i..p], p < i, r.1.comment);
    }
  }
  /**
   * Reading characters leaves the line of the last token at 0 and its column
   * as it was, so the syntax error a NUL raises inside a comment or a
   * triple-quoted description is reported at line 0 and that column.
   */
  lemma NulReportedAtLineZero(inp: Input, s: LexState)
    requires InRange(inp, s)
    ensures var at := Location(0, s.pos.column);
      var caught := Reported(QueryError("syntax error: " + NulError.message, "", [at]));
      var c := Comment(inp, s);
      var t := TripleQuote(inp, s);
      && (s.next == Char('#') ==> c.1.pos == at)
      && t.1.pos == at
      && (s.next == Char('#') && c.0 == Fail(NulError) ==> CatchSyntaxError(c.0, c.1.pos) == caught)
      && (t.0 == Failure(NulError) ==> CatchSyntaxError(Fail(t.0.error), t.1.pos) == caught)
  {
  }

  /** The conclusions of `NulEndsComment` about the offset, over plain values. */
  lemma NulStop(src: string, lo: nat, e: nat, p: nat, fail: bool, off: nat)
    requires lo <= p <= e && (p < e ==> NulAhead(src, p)) && NoNulRead(src, lo, p)
    requires (fail <==> p < e) && (fail ==> off == p + 1)
    ensures fail <==> !NoNulRead(src, lo, e)
    ensures fail ==> lo < off <= e && NulAhead(src, off - 1) && NoNulRead(src, lo, off - 1)
  {
    if fail {
      assert lo <= p < e && NulAhead(src, p);
    }
  }
  lemma PrefixKept(a: string, sep: string, t: string, keep: bool, c: string)
    requires c == if keep then a else a + sep + t
    ensures |a| <= |c| && c[..|a|] == a
  {
    if !keep {
      AppendParts(a, sep, t);
    }
  }
  /** The conclusions of `CommentAppendsLine`, over the new buffer `c` and offset `off`. */
  lemma CommentText(a: string, sepn: nat, src: string, i: nat, c: string, off: nat)
    requires i <= |src| && sepn <= 1
    requires c == a + (if sepn == 1 then "\n" else "") + src[i..LineEnd(src, i)]
    requires off == After(src, LineEnd(src, i))
    ensures && |a| + sepn <= |c|
            && c[..|a|] == a
            && (sepn == 1 ==> c[|a|] == '\n')
            && var line := c[|a| + sepn..];
               && i + |line| <= |src|
               && line == src[i..i + |line|]
               && (forall k :: 0 <= k < |line| ==> line[k] != '\n' && line[k] != '\r')
               && (i + |line| == |src| || src[i + |line|] == '\n' || src[i + |line|] == '\r')
               && off == if i + |line| < |src| then i + |line| + 1 else |src|
  {
    var sep := if sepn == 1 then "\n" else "";
    var line := src[i..LineEnd(src, i)];
    AppendParts(a, sep, line);
    LineSlice(src, i);
    assert c[|a| + sepn..] == line;
  }
  lemma LineSlice(src: string, i: nat)
    requires i <= |src|
    ensures var line := src[i..LineEnd(src, i)];
      && i + |line| == LineEnd(src, i) <= |src|
      && (forall k :: 0 <= k < |line| ==> line[k] != '\n' && line[k] != '\r')
      && (i + |line| == |src| || src[i + |line|] == '\n' || src[i + |line|] == '\r')
  {
    var j := LineEnd(src, i);
    var line := src[i..j];
    forall k | 0 <= k < |line|
      ensures line[k] != '\n' && line[k] != '\r'
    {
      assert line[k] == src[i + k];
    }
  }
  /**
   * The reading loop appends the rest of the line and ends past its
   * terminator, unless a read meets a NUL first: then it keeps the text
   * before that read and ends past the NUL.
   */
  lemma {:induction false} CommentLoopReads(src: string, off: nat, buf: string)
    requires off <= |src|
    ensures var j := LineEnd(src, off);
      var p := FirstNul(src, off, After(src, j));
      CommentLoop(src, off, buf) ==
        if p < After(src, j) then (Fail(NulError), p + 1, buf + src[off..p])
        else (Pass, After(src, j), buf + src[off..j])
    decreases |src| - off
  {
    var j := LineEnd(src, off);
    if NulAhead(src, off) {
      assert FirstNul(src, off, After(src, j)) == off;
      assert buf + src[off..off] == buf;
    } else if off == |src| || src[off] == '\r' || src[off] == '\n' {
      assert j == off;
      assert buf + src[off..off] == buf;
    } else {
      var e := After(src, j);
      CommentLoopReads(src, off + 1, buf + [src[off]]);
      assert LineEnd(src, off + 1) == j;
      assert FirstNul(src, off, e) == FirstNul(src, off + 1, e);
      var p := FirstNul(src, off, e);
      var t := if p < e then p else j;
      assert buf + [src[off]] + src[off + 1..t] == buf + src[off..t];
    }
  }

  lemma CommentIs(inp: Input, s: LexState, i: nat, j: nat, sep: string, p: nat)
    requires InRange(inp, s) && s.next == Char('#')
    requires i == if s.off < |inp.src| && inp.src[s.off] == ' ' then s.off + 1 else s.off
    requires j == LineEnd(inp.src, i)
    requires sep == if |s.comment| > 0 then "\n" else ""
    requires p == FirstNul(inp.src, s.off, After(inp.src, j))
    ensures Comment(inp, s).0.Pass? <==> p == After(inp.src, j)
    ensures p == After(inp.src, j) ==> Comment(inp, s).1.comment == s.comment + sep + inp.src[i..j]
    ensures p == After(inp.src, j) ==> Comment(inp, s).1.off == After(inp.src, j)
    ensures p < After(inp.src, j) ==>
      && Comment(inp, s).0 == Fail(NulError)
      && Comment(inp, s).1.off == p + 1
      && Comment(inp, s).1.comment == if p < i then s.comment else s.comment + sep + inp.src[i..p]
  {
    assert RuneAt(inp.src, s.off) == Char(' ') <==> s.off < |inp.src| && inp.src[s.off] == ' ';
    if !(i == s.off + 1 && NulAhead(inp.src, s.off)) {
      CommentLoopReads(inp.src, i, s.comment + sep);
      assert FirstNul(inp.src, s.off, After(inp.src, j)) == FirstNul(inp.src, i, After(inp.src, j));
    }
  }
  lemma AppendParts(a: string, sep: string, line: string)
    ensures (a + sep + line)[..|a|] == a
    ensures |sep| == 1 ==> (a + sep + line)[|a|] == sep[0]
    ensures (a + sep + line)[|a| + |sep|..] == line
  {
  }

  /** The number of '"' the text ends with. */
  function QuoteRun(t: string): (n: nat)
    ensures n <= |t|
  {
    if |t| == 0 || t[|t| - 1] != '"' then 0 else 1 + QuoteRun(t[..|t| - 1])
  }
  /** The text ends with three '"'. */
  predicate ClosesTriple(t: string) {
    |t| >= 3 && t[|t| - 3] == '"' && t[|t| - 2] == '"' && t[|t| - 1] == '"'
  }
  /** The text holds no three consecutive '"'. */
  predicate NoTriple(t: string) {
    forall k :: 2 <= k < |t| ==> !(t[k - 2] == '"' && t[k - 1] == '"' && t[k] == '"')
  }
  lemma QuoteRunStep(t: string, c: char)
    ensures QuoteRun(t + [c]) == if c == '"' then QuoteRun(t) + 1 else 0
  {
    assert (t + [c])[..|t|] == t;
  }
  lemma QuoteRunEnds(t: string)
    requires QuoteRun(t) >= 2
    ensures t[|t| - 1] == '"' && t[|t| - 2] == '"'
  {
    var u := t[..|t| - 1];
    assert QuoteRun(u) >= 1;
    assert u[|u| - 1] == t[|t| - 2];
  }
  lemma QuoteRunTwo(t: string)
    requires |t| >= 2 && t[|t| - 1] == '"' && t[|t| - 2] == '"'
    ensures QuoteRun(t) >= 2
  {
    var u := t[..|t| - 1];
    assert u[|u| - 1] == t[|t| - 2];
  }
  lemma NoTripleStep(t: string, c: char)
    requires NoTriple(t)
    requires c == '"' ==> QuoteRun(t) < 2
    ensures NoTriple(t + [c])
  {
    var t' := t + [c];
    if c == '"' && |t| >= 2 && t[|t| - 1] == '"' && t[|t| - 2] == '"' {
      QuoteRunTwo(t);
    }
    forall k | 2 <= k < |t'|
      ensures !(t'[k - 2] == '"' && t'[k - 1] == '"' && t'[k] == '"')
    {
      if k < |t| {
        assert t'[k - 2] == t[k - 2] && t'[k - 1] == t[k - 1] && t'[k] == t[k];
      }
    }
  }

  /**
   * What reading a block string from `off` on, after `buf`, produced: up to and
   * including a closing triple quote, or to the end of the input followed by
   * the EOF rune.
   */
  predicate ReadsQuoted(src: string, off: nat, buf: string, q: Quoted)
    requires off <= |src|
  {
    && (q.last != EOF ==> q.quotes == 3 && off + 1 <= q.off <= |src| && q.buf == buf + src[off..q.off]
                          && ClosesTriple(q.buf))
    && (q.last == EOF ==> q.quotes == 0 && q.off == |src| && q.buf == buf + src[off..] + [RuneChar(EOF)]
                          )
  }
  lemma QuoteLoopAtEnd(src: string, buf: string, n: nat)
    requires n <= |buf| && NoTriple(buf)
    ensures ReadsQuoted(src, |src|, buf, QuoteLoop(src, |src|, buf, n))
  {
    assert src[|src|..] == [];
    assert buf + src[|src|..] == buf;
  }
  lemma QuoteLoopCloses(src: string, off: nat, buf: string)
    requires off < |src| && src[off] == '"' && 2 <= |buf| && QuoteRun(buf) == 2 && NoTriple(buf)
    ensures ReadsQuoted(src, off, buf, QuoteLoop(src, off, buf, 2))
  {
    QuoteRunEnds(buf);
    assert (buf + [src[off]])[..|buf|] == buf;
    assert src[off..off + 1] == [src[off]];
  }
  lemma QuoteLoopUnfold(src: string, off: nat, buf: string, n: nat)
    requires off < |src| && n <= 2 && n <= |buf| && !(src[off] == '"' && n == 2)
    ensures QuoteLoop(src, off, buf, n)
         == QuoteLoop(src, off + 1, buf + [src[off]], if src[off] == '"' then n + 1 else 0)
  {
  }
  lemma SliceCons(src: string, off: nat, end: nat)
    requires off < end <= |src|
    ensures src[off..end] == [src[off]] + src[off + 1..end]
  {
  }
  lemma QuoteLoopStep(src: string, off: nat, buf: string, c: char, q: Quoted)
    requires off < |src| && src[off] == c
    requires ReadsQuoted(src, off + 1, buf + [c], q)
    ensures ReadsQuoted(src, off, buf, q)
  {
    if q.last != EOF {
      SliceCons(src, off, q.off);
      assert buf + [c] + src[off + 1..q.off] == buf + src[off..q.off];
    } else {
      SliceCons(src, off, |src|);
      assert buf + [c] + src[off + 1..] == buf + src[off..];
    }
  }
  lemma {:induction false} QuoteLoopReads(src: string, off: nat, buf: string, n: nat)
    requires off <= |src| && n <= 2 && n <= |buf| && QuoteRun(buf) == n && NoTriple(buf)
    ensures ReadsQuoted(src, off, buf, QuoteLoop(src, off, buf, n))
    decreases |src| - off
  {
    if off == |src| {
      QuoteLoopAtEnd(src, buf, n);
    } else if src[off] == '"' && n == 2 {
      QuoteLoopCloses(src, off, buf);
    } else {
      var n' := if src[off] == '"' then n + 1 else 0;
      QuoteRunStep(buf, src[off]);
      NoTripleStep(buf, src[off]);
      QuoteLoopReads(src, off + 1, buf + [src[off]], n');
      QuoteLoopUnfold(src, off, buf, n);
      QuoteLoopStep(src, off, buf, src[off], QuoteLoop(src, off + 1, buf + [src[off]], n'));
    }
  }
  /** Reading stopped at the first triple quote, or found none. */
  predicate NoEarlyClose(src: string, off: nat, buf: string, q: Quoted)
    requires off <= |src|
  {
    && (q.last != EOF ==> |q.buf| >= 1 && NoTriple(q.buf[..|q.buf| - 1]))
    && (q.last == EOF ==> NoTriple(buf + src[off..]))
  }
  lemma NoEarlyCloseStep(src: string, off: nat, buf: string, c: char, q: Quoted)
    requires off < |src| && src[off] == c
    requires NoEarlyClose(src, off + 1, buf + [c], q)
    ensures NoEarlyClose(src, off, buf, q)
  {
    if q.last == EOF {
      SliceCons(src, off, |src|);
      assert buf + [c] + src[off + 1..] == buf + src[off..];
    }
  }
  lemma {:induction false} QuoteLoopFirst(src: string, off: nat, buf: string, n: nat)
    requires off <= |src| && n <= 2 && n <= |buf| && QuoteRun(buf) == n && NoTriple(buf)
    ensures NoEarlyClose(src, off, buf, QuoteLoop(src, off, buf, n))
    decreases |src| - off
  {
    if off == |src| {
      assert buf + src[off..] == buf;
    } else if src[off] == '"' && n == 2 {
      assert (buf + [src[off]])[..|buf|] == buf;
    } else {
      var n' := if src[off] == '"' then n + 1 else 0;
      QuoteRunStep(buf, src[off]);
      NoTripleStep(buf, src[off]);
      QuoteLoopFirst(src, off + 1, buf + [src[off]], n');
      QuoteLoopUnfold(src, off, buf, n);
      NoEarlyCloseStep(src, off, buf, src[off], QuoteLoop(src, off + 1, buf + [src[off]], n'));
    }
  }

  lemma ClosedSlices(src: string, start: nat, end: nat, buf: string)
    requires start <= end <= |src| && buf == src[start..end] && ClosesTriple(buf)
    ensures start + 3 <= end
    ensures buf[..|buf| - 3] == src[start..end - 3]
    ensures buf[..|buf| - 1] == src[start..end - 1]
  {
  }

  /** With a closing triple quote, the text handed to the normaliser is everything before it. */
  lemma QuoteBodyClosed(src: string, start: nat)
    requires start <= |src| && QuoteLoop(src, start, "", 0).last != EOF
    ensures var q := QuoteLoop(src, start, "", 0);
      && start + 3 <= q.off
      && ClosesTriple(src[start..q.off])
      && NoTriple(src[start..q.off - 1])
      && q.buf[..|q.buf| - q.quotes] == src[start..q.off - 3]
  {
    var q := QuoteLoop(src, start, "", 0);
    QuoteLoopReads(src, start, "", 0);
    QuoteLoopFirst(src, start, "", 0);
    ClosedBody(src, start, q);
  }
  lemma ClosedBody(src: string, start: nat, q: Quoted)
    requires start <= |src| && q.last != EOF
    requires ReadsQuoted(src, start, "", q) && NoEarlyClose(src, start, "", q)
    ensures && start + 3 <= q.off
            && ClosesTriple(src[start..q.off])
            && NoTriple(src[start..q.off - 1])
            && q.buf[..|q.buf| - q.quotes] == src[start..q.off - 3]
  {
    var body := src[start..q.off];
    assert q.quotes == 3 && q.buf == "" + body;
    assert "" + body == body;
    ClosedSlices(src, start, q.off, q.buf);
    var head := q.buf[..|q.buf| - 1];
    assert NoTriple(head);
    assert head == src[start..q.off - 1];
  }

  /** Without one, it is the rest of the input followed by U+FFFD. */
  lemma QuoteBodyOpen(src: string, start: nat)
    requires start <= |src| && QuoteLoop(src, start, "", 0).last == EOF
    ensures var q := QuoteLoop(src, start, "", 0);
      && q.off == |src|
      && NoTriple(src[start..])
      && q.buf[..|q.buf| - q.quotes] == src[start..] + [RuneChar(EOF)]
  {
    QuoteLoopReads(src, start, "", 0);
    QuoteLoopFirst(src, start, "", 0);
    assert "" + src[start..] == src[start..];
  }

  /**
   * A block-string description runs from just after the third opening quote
   * up to the first run of three '"', which is dropped; its value is the
   * normalised text in between. Unterminated, it runs to the end of the
   * input and the EOF read at the end is kept in the text as U+FFFD. A NUL
   * after any character read, the third quote included, is the scanner's
   * syntax error instead.
   */
  lemma TripleQuoteReads(inp: Input, s: LexState)
    requires InRange(inp, s)
    ensures var r := TripleQuote(inp, s);
      var start := s.off + 1;
      && (NulAhead(inp.src, s.off) ==> r.0 == Failure(NulError))
      && (r.0.Success? <==>
            RuneAt(inp.src, s.off) == Char('"') && NoNulRead(inp.src, s.off, QuoteLoop(inp.src, start, "", 0).off))
      && (r.0.Failure? && RuneAt(inp.src, s.off) == Char('"') ==> r.0.error == NulError)
      && (r.0.Success? ==> r.0.value == BlockString.BlockStringValue(BlockText(inp.src, s.off)))
      && (r.0.Success? && r.1.next != EOF ==>
            && start + 3 <= r.1.off
            && ClosesTriple(inp.src[start..r.1.off])
            && NoTriple(inp.src[start..r.1.off - 1])
            && BlockText(inp.src, s.off) == inp.src[start..r.1.off - 3])
      && (r.0.Success? && r.1.next == EOF ==>
            && r.1.off == |inp.src|
            && NoTriple(inp.src[start..])
            && BlockText(inp.src, s.off) == inp.src[start..] + [RuneChar(EOF)])
  {
    if RuneAt(inp.src, s.off) == Char('"') {
      if NoNulRead(inp.src, s.off, QuoteLoop(inp.src, s.off + 1, "", 0).off) {
        TripleQuoteAfter(inp, s);
        if QuoteLoop(inp.src, s.off + 1, "", 0).last != EOF {
          TripleQuoteClosed(inp, s);
        } else {
          TripleQuoteOpen(inp, s);
        }
      } else {
        TripleQuoteNul(inp, s);
      }
    } else {
      TripleQuoteWrong(inp, s);
    }
  }
  lemma TripleQuoteNul(inp: Input, s: LexState)
    requires InRange(inp, s) && RuneAt(inp.src, s.off) == Char('"')
    requires !NoNulRead(inp.src, s.off, QuoteLoop(inp.src, s.off + 1, "", 0).off)
    ensures TripleQuote(inp, s).0 == Failure(NulError)
  {
    var a := After(inp.src, s.off);
    assert a == s.off + 1;
    var q := QuoteLoop(inp.src, a, "", 0);
    if NulAhead(inp.src, s.off) {
      assert TripleQuote(inp, s) == (Failure(NulError), s.(off := a, pos := LineCleared(s.pos)));
    } else {
      var k :| s.off <= k < q.off && NulAhead(inp.src, k);
      var p := FirstNul(inp.src, a, q.off);
      FirstNulFinds(inp.src, a, q.off);
      assert p < q.off;
      assert TripleQuote(inp, s) == (Failure(NulError), s.(off := a, pos := LineCleared(s.pos), next := Char('"')).(off := p + 1, next := RuneAt(inp.src, p - 1)));
    }
  }
  /** The four ends of `TripleQuote`, one lemma each, for the method that reads it. */
  lemma TripleQuoteNulFirst(inp: Input, s: LexState)
    requires InRange(inp, s) && NulAhead(inp.src, s.off)
    ensures TripleQuote(inp, s) == (Failure(NulError), s.(off := s.off + 1, pos := LineCleared(s.pos)))
  {
  }
  lemma TripleQuoteWrongIs(inp: Input, s: LexState)
    requires InRange(inp, s) && !NulAhead(inp.src, s.off) && RuneAt(inp.src, s.off) != Char('"')
    ensures TripleQuote(inp, s) == (Failure(Panic("consumeTripleQuoteComment used in wrong context: no third quote?")),
                                    s.(off := After(inp.src, s.off), pos := LineCleared(s.pos), next := RuneAt(inp.src, s.off)))
  {
  }
  lemma TripleQuoteNulLater(inp: Input, s: LexState, q: Quoted, p: nat)
    requires InRange(inp, s) && !NulAhead(inp.src, s.off) && RuneAt(inp.src, s.off) == Char('"')
    requires q == QuoteLoop(inp.src, s.off + 1, "", 0) && s.off + 1 <= q.off
    requires p == FirstNul(inp.src, s.off + 1, q.off) && p < q.off
    ensures p >= 1 && TripleQuote(inp, s) == (Failure(NulError), s.(off := p + 1, pos := LineCleared(s.pos), next := RuneAt(inp.src, p - 1)))
  {
    var a := After(inp.src, s.off);
    assert a == s.off + 1;
    assert TripleQuote(inp, s) == (Failure(NulError), s.(off := a, pos := LineCleared(s.pos), next := Char('"')).(off := p + 1, next := RuneAt(inp.src, p - 1)));
  }
  lemma TripleQuoteDone(inp: Input, s: LexState, q: Quoted)
    requires InRange(inp, s) && !NulAhead(inp.src, s.off) && RuneAt(inp.src, s.off) == Char('"')
    requires q == QuoteLoop(inp.src, s.off + 1, "", 0) && s.off + 1 <= q.off
    requires FirstNul(inp.src, s.off + 1, q.off) == q.off
    ensures TripleQuote(inp, s) == (Success(BlockString.BlockStringValue(BlockText(inp.src, s.off))),
                                    s.(off := q.off, pos := LineCleared(s.pos), next := q.last))
  {
    var a := After(inp.src, s.off);
    assert a == s.off + 1;
    assert TripleQuote(inp, s) == (Success(BlockString.BlockStringValue(BlockText(inp.src, s.off))),
                                   s.(off := a, pos := LineCleared(s.pos), next := Char('"')).(off := q.off, next := q.last));
  }

  lemma TripleQuoteClosed(inp: Input, s: LexState)
    requires InRange(inp, s) && RuneAt(inp.src, s.off) == Char('"')
    requires NoNulRead(inp.src, s.off, QuoteLoop(inp.src, s.off + 1, "", 0).off)
    requires QuoteLoop(inp.src, s.off + 1, "", 0).last != EOF
    ensures var r := TripleQuote(inp, s);
      var start := s.off + 1;
      && r.1.next != EOF
      && start + 3 <= r.1.off
      && ClosesTriple(inp.src[start..r.1.off])
      && NoTriple(inp.src[start..r.1.off - 1])
      && BlockText(inp.src, s.off) == inp.src[start..r.1.off - 3]
  {
    TripleQuoteAfter(inp, s);
    BlockTextClosed(inp.src, s.off, TripleQuote(inp, s).1.off);
  }
  lemma TripleQuoteOpen(inp: Input, s: LexState)
    requires InRange(inp, s) && RuneAt(inp.src, s.off) == Char('"')
    requires NoNulRead(inp.src, s.off, QuoteLoop(inp.src, s.off + 1, "", 0).off)
    requires QuoteLoop(inp.src, s.off + 1, "", 0).last == EOF
    ensures var r := TripleQuote(inp, s);
      var start := s.off + 1;
      && r.1.next == EOF
      && r.1.off == |inp.src|
      && NoTriple(inp.src[start..])
      && BlockText(inp.src, s.off) == inp.src[start..] + [RuneChar(EOF)]
  {
    TripleQuoteAfter(inp, s);
    BlockTextOpen(inp.src, s.off, TripleQuote(inp, s).1.off);
  }
  lemma TripleQuoteWrong(inp: Input, s: LexState)
    requires InRange(inp, s) && RuneAt(inp.src, s.off) != Char('"')
    ensures TripleQuote(inp, s).0.Failure?
    ensures NulAhead(inp.src, s.off) ==> TripleQuote(inp, s).0 == Failure(NulError)
  {
  }
  lemma TripleQuoteAfter(inp: Input, s: LexState)
    requires InRange(inp, s) && RuneAt(inp.src, s.off) == Char('"')
    requires NoNulRead(inp.src, s.off, QuoteLoop(inp.src, s.off + 1, "", 0).off)
    ensures var q := QuoteLoop(inp.src, s.off + 1, "", 0);
      && TripleQuote(inp, s).0 == Success(BlockString.BlockStringValue(BlockText(inp.src, s.off)))
      && TripleQuote(inp, s).1.off == q.off && TripleQuote(inp, s).1.next == q.last
  {
    var a := After(inp.src, s.off);
    assert a == s.off + 1;
    var q := QuoteLoop(inp.src, a, "", 0);
    assert !NulAhead(inp.src, s.off);
    FirstNulFinds(inp.src, a, q.off);
    assert FirstNul(inp.src, a, q.off) == q.off;
    var r := TripleQuote(inp, s);
    assert r == (Success(BlockString.BlockStringValue(BlockText(inp.src, s.off))),
                 s.(off := a, pos := LineCleared(s.pos), next := Char('"')).(off := q.off, next := q.last));
  }
  lemma BlockTextClosed(src: string, off: nat, e: nat)
    requires off < |src| && QuoteLoop(src, off + 1, "", 0).last != EOF
    requires e == QuoteLoop(src, off + 1, "", 0).off
    ensures && off + 4 <= e
            && ClosesTriple(src[off + 1..e])
            && NoTriple(src[off + 1..e - 1])
            && BlockText(src, off) == src[off + 1..e - 3]
  {
    assert After(src, off) == off + 1;
    var q := QuoteLoop(src, off + 1, "", 0);
    assert BlockText(src, off) == q.buf[..|q.buf| - q.quotes];
    QuoteBodyClosed(src, off + 1);
  }
  lemma BlockTextOpen(src: string, off: nat, e: nat)
    requires off < |src| && QuoteLoop(src, off + 1, "", 0).last == EOF
    requires e == QuoteLoop(src, off + 1, "", 0).off
    ensures && e == |src|
            && NoTriple(src[off + 1..])
            && BlockText(src, off) == src[off + 1..] + [RuneChar(EOF)]
  {
    assert After(src, off) == off + 1;
    var q := QuoteLoop(src, off + 1, "", 0);
    assert BlockText(src, off) == q.buf[..|q.buf| - q.quotes];
    QuoteBodyOpen(src, off + 1);
  }

  // ---------------------------------------------------------------------------
  // The lexer object

  class Lexer {
    const src: string
    const steps: seq<ScanStep>
    const useStringDescriptions: bool
    var off: nat
    var pos: Location
    var text: string
    var unquoted: Option<string>
    var next: Kind
    var comment: string

    ghost function Inp(): Input {
      Input(src, steps, useStringDescriptions)
    }

    ghost function State(): LexState
      reads this
    {
      LexState(off, pos, text, unquoted, next, comment)
    }

    ghost predicate Valid()
      reads this
    {
      InRange(Inp(), State())
    }

    ghost function Progress(): nat
      reads this
      requires Valid()
    {
      Remaining(Inp(), State())
    }

    /** `NewLexer`: nothing scanned yet, so `next` holds the zero rune. */
    constructor (s: string, scanTable: seq<ScanStep>, useStringDescriptions: bool)
      requires WellFormed(Input(s, scanTable, useStringDescriptions))
      ensures Valid() && Inp() == Input(s, scanTable, useStringDescriptions)
      ensures State() == LexState(0, Ast.Location(0, 0), "", None, Char('\0'), "")
    {
      src := s;
      steps := scanTable;
      this.useStringDescriptions := useStringDescriptions;
      off := 0;
      pos := Ast.Location(0, 0);
      text := "";
      unquoted := None;
      next := Char('\0');
      comment := "";
    }

    function Peek(): Kind
      reads this
    {
      next
    }

    function Location(): Ast.Location
      reads this
    {
      pos
    }

    /** The scanner's `Peek`: the character ahead, without reading it. */
    function PeekRune(): Kind
      reads this
    {
      RuneAt(src, off)
    }

    /**
     * The scanner's `Next`: the character at the offset (EOF at the end),
     * reading the one after it ahead; a NUL read ahead raises the error
     * handler's syntax error before the character is returned.
     */
    method NextRune() returns (o: Outcome, r: Kind)
      requires Valid()
      modifies this
      ensures Valid() && r == RuneAt(src, old(off))
      ensures o == if NulAhead(src, old(off)) then Fail(NulError) else Pass
      ensures State() == old(State()).(off := After(src, old(off)), pos := LineCleared(old(pos)))
    {
      pos := LineCleared(pos);
      r := RuneAt(src, off);
      o := if off + 1 < |src| && src[off + 1] == '\0' then Fail(NulError) else Pass;
      if off < |src| {
        off := off + 1;
      }
    }

    /** The scanner's `Scan`, with its error handler raising a syntax error. */
    method Scan() returns (o: Outcome)
      requires Valid()
      modifies this
      ensures Valid() && (o, State()) == ScanOnce(Inp(), old(State()))
    {
      assert StepOk(Inp(), off);
      match steps[off]
      case Scanned(k, t, loc, u, stop) =>
        off, pos, text, unquoted, next := stop, loc, t, u, k;
        o := Pass;
      case ScanFailed(m, loc) =>
        pos := loc;
        o := Fail(Syntax(m));
    }

    method ConsumeWhitespace() returns (o: Outcome)
      requires Valid()
      modifies this
      ensures Valid() && (o, State()) == Whitespace(Inp(), old(State()))
    {
      comment := "";
      ghost var goal := Whitespace(Inp(), old(State()));
      while true
        invariant Valid()
        invariant SkipInsignificant(Inp(), State()) == goal
        decreases |src| - off
      {
        ghost var before := State();
        o := Scan();
        if o.Fail? {
          return;
        }
        if next == Char(',') {
          continue;
        }
        if next == Char('#') {
          o := ConsumeComment();
          if o.Fail? {
            return;
          }
          continue;
        }
        return;
      }
    }

    method ConsumeComment() returns (o: Outcome)
      requires Valid()
      modifies this
      ensures Valid() && (o, State()) == Comment(Inp(), old(State()))
    {
      if next != Char('#') {
        return Fail(Panic("consumeComment used in wrong context"));
      }
      ghost var s0 := old(State());
      if PeekRune() == Char(' ') {
        var n, _ := NextRune();
        if n.Fail? {
          return n;
        }
      }
      if |comment| > 0 {
        comment := comment + "\n";
      } else {
        assert comment + "" == comment;
      }
      o := ReadLine();
    }

    /** The reading loop of `consumeComment`. */
    method ReadLine() returns (o: Outcome)
      requires Valid()
      modifies this
      ensures Valid()
      ensures var l := CommentLoop(src, old(off), old(comment));
        o == l.0 && State() == old(State()).(off := l.1, pos := LineCleared(old(pos)), comment := l.2)
    {
      ghost var goal := CommentLoop(src, off, comment);
      while true
        invariant Valid()
        invariant CommentLoop(src, off, comment) == goal
        invariant State() == old(State()).(off := off, pos := pos, comment := comment)
        invariant LineCleared(pos) == LineCleared(old(pos))
        decreases |src| - off
      {
        var n, c := NextRune();
        if n.Fail? {
          return n;
        }
        if c == Char('\r') || c == Char('\n') || c == EOF {
          break;
        }
        comment := comment + [c.c];
      }
      o := Pass;
    }

    method ConsumeTripleQuoteComment() returns (r: Result<string, Abort>)
      requires Valid()
      modifies this
      ensures Valid() && (r, State()) == TripleQuote(Inp(), old(State()))
    {
      ghost var s0 := State();
      var n, c := NextRune();
      if n.Fail? {
        TripleQuoteNulFirst(Inp(), s0);
        return Failure(n.reason);
      }
      next := c;
      if next != Char('"') {
        TripleQuoteWrongIs(Inp(), s0);
        return Failure(Panic("consumeTripleQuoteComment used in wrong context: no third quote?"));
      }
      ghost var q := QuoteLoop(src, off, "", 0);
      var buf, numQuotes, o := ReadQuoted();
      if o.Fail? {
        TripleQuoteNulLater(Inp(), s0, q, FirstNul(src, s0.off + 1, q.off));
        return Failure(o.reason);
      }
      TripleQuoteDone(Inp(), s0, q);
      var val := buf[..|buf| - numQuotes];
      assert val == BlockText(src, s0.off);
      var v := BlockString.BlockString(val);
      r := Success(v);
    }

    /** The reading loop of `consumeTripleQuoteComment`. */
    method ReadQuoted() returns (buf: string, numQuotes: nat, o: Outcome)
      requires Valid()
      modifies this
      ensures Valid()
      ensures var q := QuoteLoop(src, old(off), "", 0);
        var p := FirstNul(src, old(off), q.off);
        && (o.Pass? <==> p == q.off)
        && (o.Pass? ==>
              buf == q.buf && numQuotes == q.quotes && State() == old(State()).(off := q.off, pos := LineCleared(old(pos)), next := q.last))
        && (o.Fail? ==>
              o.reason == NulError
              && State() == old(State()).(off := p + 1, pos := LineCleared(old(pos)),
                                       next := if p == old(off) then old(next) else RuneAt(src, p - 1)))
    {
      buf := "";
      numQuotes := 0;
      ghost var start := off;
      ghost var goal := QuoteLoop(src, off, "", 0);
      FirstNulFinds(src, start, goal.off);
      while true
        invariant Valid()
        invariant start <= off
        invariant numQuotes <= |buf|
        invariant QuoteLoop(src, off, buf, numQuotes) == goal
        invariant State() == old(State()).(off := off, pos := pos, next := next)
        invariant LineCleared(pos) == LineCleared(old(pos))
        invariant NoNulRead(src, start, off)
        invariant next == if off == start then old(next) else RuneAt(src, off - 1)
        decreases |src| - off
      {
        var n, c := NextRune();
        if n.Fail? {
          return buf, numQuotes, n;
        }
        next := c;
        if next == Char('"') {
          numQuotes := numQuotes + 1;
        } else {
          numQuotes := 0;
        }
        buf := buf + [RuneChar(next)];
        if numQuotes == 3 || next == EOF {
          break;
        }
      }
      o := Pass;
    }

    method ConsumeStringComment() returns (r: Result<string, Abort>)
      ensures r == if unquoted.None? then Failure(Panic("invalid syntax")) else Success(unquoted.value)
    {
      if unquoted.None? {
        return Failure(Panic("invalid syntax"));
      }
      r := Success(unquoted.value);
    }

    method ConsumeDescription() returns (r: Result<string, Abort>)
      requires Valid()
      modifies this
      ensures Valid() && (r, State()) == Description(Inp(), old(State()))
    {
      if next != String {
        return Success("");
      }
      var desc: Result<string, Abort>;
      if PeekRune() == Char('"') {
        desc := ConsumeTripleQuoteComment();
      } else {
        desc := ConsumeStringComment();
      }
      if desc.Failure? {
        return desc;
      }
      var o := ConsumeWhitespace();
      if o.Fail? {
        return Failure(o.reason);
      }
      r := desc;
    }

    method DescComment() returns (r: Result<string, Abort>)
      requires Valid()
      modifies this
      ensures Valid() && (r, State()) == DescCommentOf(Inp(), old(State()))
    {
      var snapshot := comment;
      var desc := ConsumeDescription();
      if desc.Failure? {
        return desc;
      }
      if useStringDescriptions {
        return desc;
      }
      r := Success(snapshot);
    }

    method ConsumeToken(expected: Kind) returns (o: Outcome)
      requires Valid()
      modifies this
      ensures Valid() && (o, State()) == TokenConsumed(Inp(), old(State()), expected)
    {
      if next != expected {
        return Fail(Unexpected(text, TokenString(expected)));
      }
      o := ConsumeWhitespace();
    }

    method ConsumeKeyword(keyword: string) returns (o: Outcome)
      requires Valid()
      modifies this
      ensures Valid() && (o, State()) == KeywordConsumed(Inp(), old(State()), keyword)
    {
      if next != Kind.Ident || text != keyword {
        return Fail(Unexpected(text, Quote(keyword)));
      }
      o := ConsumeWhitespace();
    }

    method ConsumeIdent() returns (r: Result<string, Abort>)
      requires Valid()
      modifies this
      ensures Valid() && (r, State()) == IdentConsumed(Inp(), old(State()))
    {
      var name := text;
      var o := ConsumeToken(Kind.Ident);
      if o.Fail? {
        return Failure(o.reason);
      }
      r := Success(name);
    }

    method ConsumeIdentWithLoc() returns (r: Result<Ident, Abort>)
      requires Valid()
      modifies this
      ensures Valid() && (r, State()) == IdentWithLocConsumed(Inp(), old(State()))
    {
      var loc := Location();
      var name := text;
      var o := ConsumeToken(Kind.Ident);
      if o.Fail? {
        return Failure(o.reason);
      }
      r := Success(Ident.Ident(name, loc));
    }

    method ConsumeLiteral() returns (r: Result<Value, Abort>)
      requires Valid()
      modifies this
      ensures Valid() && (r, State()) == LiteralConsumed(Inp(), old(State()))
    {
      var lit := Primitive(next, text, Ast.Location(0, 0));
      var o := ConsumeWhitespace();
      if o.Fail? {
        return Failure(o.reason);
      }
      r := Success(lit);
    }
  }
}
