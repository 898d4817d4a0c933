/**
 * The block-string normaliser: the value of a triple-quoted string is its raw
 * text split into lines, with the common indentation of every line but the
 * first removed and blank lines dropped from both ends (BlockStringValue() in
 * section 2.9.4 of the June 2018 GraphQL specification).
 *
 * Strings are sequences of characters; the source slices bytes, which agrees
 * with this because only spaces and tabs are ever counted or cut.
 */
module BlockString {
  import opened Wrappers

  predicate IsWhite(c: char) {
    c == ' ' || c == '\t'
  }

  /** A line is blank when it holds nothing but spaces and tabs (the empty line included). */
  predicate Blank(s: string) {
    forall k :: 0 <= k < |s| ==> IsWhite(s[k])
  }

  /** The number of spaces and tabs a line starts with. */
  function IndentOf(s: string): (n: nat)
    ensures n <= |s|
    ensures forall k :: 0 <= k < n ==> IsWhite(s[k])
    ensures n < |s| ==> !IsWhite(s[n])
  {
    if |s| == 0 || !IsWhite(s[0]) then 0 else 1 + IndentOf(s[1..])
  }

  lemma BlankIffAllIndent(s: string)
    ensures Blank(s) <==> IndentOf(s) == |s|
  {
  }

  // ---------------------------------------------------------------------------
  // Splitting on and joining with "\n" (strings.Split and strings.Join)

  function Join(lines: seq<string>): string
  {
    if |lines| == 0 then ""
    else if |lines| == 1 then lines[0]
    else lines[0] + "\n" + Join(lines[1..])
  }

  function FirstNewline(s: string): (i: nat)
    requires '\n' in s
    ensures i < |s| && s[i] == '\n' && '\n' !in s[..i]
  {
    if s[0] == '\n' then 0
    else
      assert s == [s[0]] + s[1..];
      var j := FirstNewline(s[1..]);
      assert s[..j + 1] == [s[0]] + s[1..][..j];
      j + 1
  }

  function Split(s: string): (lines: seq<string>)
    ensures |lines| >= 1
    ensures forall i :: 0 <= i < |lines| ==> '\n' !in lines[i]
    ensures Join(lines) == s
    decreases |s|
  {
    if '\n' !in s then [s]
    else
      var i := FirstNewline(s);
      var rest := Split(s[i + 1..]);
      var lines := [s[..i]] + rest;
      assert lines[1..] == rest;
      assert s == s[..i] + "\n" + s[i + 1..];
      lines
  }

  /** Splitting the joined lines gives the lines back. */
  lemma {:induction false} SplitJoin(lines: seq<string>)
    requires |lines| >= 1
    requires forall i :: 0 <= i < |lines| ==> '\n' !in lines[i]
    ensures Split(Join(lines)) == lines
  {
    if |lines| > 1 {
      var s := Join(lines);
      var a := lines[0];
      assert s == a + "\n" + Join(lines[1..]);
      assert s[|a|] == '\n' && s[..|a|] == a;
      assert '\n' in s;
      var i := FirstNewline(s);
      assert forall j :: 0 <= j < |a| ==> s[j] == a[j];
      assert i == |a|;
      assert s[i + 1..] == Join(lines[1..]);
      SplitJoin(lines[1..]);
      assert lines == [a] + lines[1..];
    }
  }

  // ---------------------------------------------------------------------------
  // Common indentation

  /** The least indentation among the non-blank lines of lines[1..n], if any. */
  function MinIndent(lines: seq<string>, n: nat): Option<nat>
    requires n <= 1 || n <= |lines|
  {
    if n <= 1 then None
    else
      var m := MinIndent(lines, n - 1);
      var l := lines[n - 1];
      if Blank(l) then m
      else if m.None? || IndentOf(l) < m.value then Some(IndentOf(l))
      else m
  }

  /** The indentation removed from every line after the first. */
  function CommonIndent(lines: seq<string>): nat
  {
    MinIndent(lines, |lines|).GetOr(0)
  }

  lemma {:induction false} MinIndentIsLeast(lines: seq<string>, n: nat)
    requires n <= 1 || n <= |lines|
    ensures MinIndent(lines, n).None? <==> forall i :: 1 <= i < n ==> Blank(lines[i])
    ensures MinIndent(lines, n).Some? ==>
              (forall i :: 1 <= i < n && !Blank(lines[i]) ==> MinIndent(lines, n).value <= IndentOf(lines[i]))
              && exists i :: 1 <= i < n && !Blank(lines[i]) && IndentOf(lines[i]) == MinIndent(lines, n).value
  {
    if n > 1 {
      MinIndentIsLeast(lines, n - 1);
    }
  }

  /**
   * The common indentation is the least indentation of the non-blank lines
   * after the first, and 0 when there are none.
   */
  lemma CommonIndentIsLeast(lines: seq<string>)
    ensures forall i :: 1 <= i < |lines| && !Blank(lines[i]) ==> CommonIndent(lines) <= IndentOf(lines[i])
    ensures (forall i :: 1 <= i < |lines| ==> Blank(lines[i])) ==> CommonIndent(lines) == 0
    ensures (exists i :: 1 <= i < |lines| && !Blank(lines[i])) ==>
              exists i :: 1 <= i < |lines| && !Blank(lines[i]) && IndentOf(lines[i]) == CommonIndent(lines)
  {
    MinIndentIsLeast(lines, |lines|);
  }

  /** A non-blank later line with no indentation forces the common indentation to 0. */
  lemma ZeroIndentIsCommon(lines: seq<string>, i: nat)
    requires 1 <= i < |lines| && !Blank(lines[i]) && IndentOf(lines[i]) == 0
    ensures CommonIndent(lines) == 0
  {
    CommonIndentIsLeast(lines);
  }

  // ---------------------------------------------------------------------------
  // Dedenting and trimming

  function DedentLine(l: string, ind: nat): string {
    if |l| < ind then "" else l[ind..]
  }

  /** Every line but the first loses `ind` characters, or becomes empty when shorter. */
  function Dedent(lines: seq<string>, ind: nat): (r: seq<string>)
    ensures |r| == |lines|
  {
    if ind > 0 then seq(|lines|, i requires 0 <= i < |lines| => if i == 0 then lines[0] else DedentLine(lines[i], ind))
    else lines
  }

  /** The number of blank lines the text starts with. */
  function LeadingBlanks(lines: seq<string>): (k: nat)
    ensures k <= |lines|
    ensures forall i :: 0 <= i < k ==> Blank(lines[i])
    ensures k < |lines| ==> !Blank(lines[k])
  {
    if |lines| == 0 || !Blank(lines[0]) then 0 else 1 + LeadingBlanks(lines[1..])
  }

  lemma LeadingBlanksUnique(lines: seq<string>, k: nat)
    requires k <= |lines|
    requires forall i :: 0 <= i < k ==> Blank(lines[i])
    requires k < |lines| ==> !Blank(lines[k])
    ensures k == LeadingBlanks(lines)
  {
  }

  /** The number of blank lines the text ends with, never counting its first line. */
  function TrailingBlanks(lines: seq<string>): (k: nat)
    ensures k == 0 || k < |lines|
    ensures forall i :: |lines| - k <= i < |lines| ==> Blank(lines[i])
    ensures k + 1 < |lines| ==> !Blank(lines[|lines| - k - 1])
  {
    if |lines| <= 1 || !Blank(lines[|lines| - 1]) then 0
    else 1 + TrailingBlanks(lines[..|lines| - 1])
  }

  lemma TrailingBlanksUnique(lines: seq<string>, k: nat)
    requires k == 0 || k < |lines|
    requires forall i :: |lines| - k <= i < |lines| ==> Blank(lines[i])
    requires k + 1 < |lines| ==> !Blank(lines[|lines| - k - 1])
    ensures k == TrailingBlanks(lines)
  {
  }

  function Trim(lines: seq<string>): seq<string>
  {
    var rest := lines[LeadingBlanks(lines)..];
    rest[..|rest| - TrailingBlanks(rest)]
  }

  /** Lines with their common indentation removed and blank lines trimmed from both ends. */
  function Normalize(lines: seq<string>): seq<string>
  {
    Trim(Dedent(lines, CommonIndent(lines)))
  }

  /** The lines of the value, before they are joined. */
  function BlockLines(raw: string): seq<string>
  {
    Normalize(Split(raw))
  }

  function BlockStringValue(raw: string): string
  {
    Join(BlockLines(raw))
  }

  // ---------------------------------------------------------------------------
  // Properties

  /**
   * `t` is the run of `lines` starting at index `a`, and every line outside
   * that run is blank.
   */
  ghost predicate RunAt(lines: seq<string>, t: seq<string>, a: nat) {
    && a + |t| <= |lines| && t == lines[a..a + |t|]
    && (forall i :: 0 <= i < a ==> Blank(lines[i]))
    && (forall i :: a + |t| <= i < |lines| ==> Blank(lines[i]))
  }

  /**
   * Trimming keeps one contiguous run of the lines, drops only blank lines
   * around it, and leaves no blank line at either end; it leaves nothing
   * exactly when every line is blank.
   */
  lemma TrimKeepsNonBlankCore(lines: seq<string>)
    ensures var t := Trim(lines);
      && (t == [] <==> forall i :: 0 <= i < |lines| ==> Blank(lines[i]))
      && (t != [] ==> !Blank(t[0]) && !Blank(t[|t| - 1]))
      && exists a: nat :: RunAt(lines, t, a)
  {
    var a := LeadingBlanks(lines);
    var rest := lines[a..];
    var k := TrailingBlanks(rest);
    var t := rest[..|rest| - k];
    assert t == lines[a..a + |t|];
    if rest != [] {
      assert !Blank(rest[0]);
      assert t[0] == rest[0];
      if k + 1 < |rest| {
        assert t[|t| - 1] == rest[|rest| - k - 1];
      }
    }
    forall i | a + |t| <= i < |lines|
      ensures Blank(lines[i])
    {
      assert lines[i] == rest[i - a];
    }
    assert RunAt(lines, t, a);
  }

  /** Dedenting never turns a blank line into a non-blank one or the reverse. */
  lemma DedentKeepsBlankness(lines: seq<string>, i: nat)
    requires i < |lines|
    ensures Blank(Dedent(lines, CommonIndent(lines))[i]) <==> Blank(lines[i])
  {
    var ind := CommonIndent(lines);
    CommonIndentIsLeast(lines);
    if ind > 0 && i > 0 {
      var l := lines[i];
      if !Blank(l) {
        var n := IndentOf(l);
        assert ind <= n;
        assert l[ind..][n - ind] == l[n];
      }
    }
  }

  /** After dedenting, the remaining common indentation is zero: the result is in normal form. */
  lemma DedentIsNormal(lines: seq<string>)
    ensures CommonIndent(Dedent(lines, CommonIndent(lines))) == 0
  {
    var ind := CommonIndent(lines);
    var d := Dedent(lines, ind);
    CommonIndentIsLeast(lines);
    CommonIndentIsLeast(d);
    if ind > 0 {
      var i :| 1 <= i < |lines| && !Blank(lines[i]) && IndentOf(lines[i]) == ind;
      DedentKeepsBlankness(lines, i);
      var l := lines[i];
      assert d[i] == l[ind..];
      assert IndentOf(d[i]) == 0 by {
        assert d[i][0] == l[ind];
      }
    }
  }

  /**
   * `out` is the dedented run of `lines` starting at index `a`, and every
   * line outside that run is blank.
   */
  ghost predicate DedentedRunAt(lines: seq<string>, ind: nat, out: seq<string>, a: nat) {
    && a + |out| <= |lines|
    && (forall j :: 0 <= j < |out| ==>
          out[j] == (if a + j == 0 then lines[0] else DedentLine(lines[a + j], ind)))
    && (forall i :: 0 <= i < a ==> Blank(lines[i]))
    && (forall i :: a + |out| <= i < |lines| ==> Blank(lines[i]))
  }

  /** The line at `i` after dedenting, whatever the indentation. */
  lemma DedentAt(lines: seq<string>, ind: nat, i: nat)
    requires i < |lines|
    ensures Dedent(lines, ind)[i] == if i == 0 then lines[0] else DedentLine(lines[i], ind)
  {
    if ind == 0 && i > 0 {
      assert lines[i][0..] == lines[i];
    }
  }

  /**
   * Normalising keeps a contiguous run of the dedented lines, so there are
   * never more lines than before; the first line keeps its text and every
   * later one has lost exactly the common indentation.
   */
  lemma NormalizeShape(lines: seq<string>)
    ensures var out := Normalize(lines);
      && |out| <= |lines|
      && exists a: nat :: DedentedRunAt(lines, CommonIndent(lines), out, a)
  {
    var ind := CommonIndent(lines);
    var d := Dedent(lines, ind);
    TrimKeepsNonBlankCore(d);
    var out := Trim(d);
    assert out == Normalize(lines);
    var a: nat :| RunAt(d, out, a);
    RunOfDedented(lines, ind, d, out, a);
  }
  /** A run of the dedented lines, outside which all is blank, read back on the original lines. */
  lemma RunOfDedented(lines: seq<string>, ind: nat, d: seq<string>, out: seq<string>, a: nat)
    requires ind == CommonIndent(lines) && d == Dedent(lines, ind) && RunAt(d, out, a)
    ensures DedentedRunAt(lines, ind, out, a)
  {
    forall i | 0 <= i < |lines|
      ensures Blank(d[i]) <==> Blank(lines[i])
    {
      DedentKeepsBlankness(lines, i);
    }
    forall j | 0 <= j < |out|
      ensures out[j] == (if a + j == 0 then lines[0] else DedentLine(lines[a + j], ind))
    {
      assert out[j] == d[a + j];
      DedentAt(lines, ind, a + j);
    }
  }

  /**
   * Normalising leaves nothing exactly when every line is blank, and
   * otherwise starts and ends on a non-blank line.
   */
  lemma NormalizeEnds(lines: seq<string>)
    ensures var out := Normalize(lines);
      && (out == [] <==> forall i :: 0 <= i < |lines| ==> Blank(lines[i]))
      && (out != [] ==> !Blank(out[0]) && !Blank(out[|out| - 1]))
  {
    var d := Dedent(lines, CommonIndent(lines));
    TrimKeepsNonBlankCore(d);
    forall i | 0 <= i < |lines|
      ensures Blank(d[i]) <==> Blank(lines[i])
    {
      DedentKeepsBlankness(lines, i);
    }
  }

  /** Normalising lines without line breaks introduces none. */
  lemma NormalizeNoBreak(lines: seq<string>)
    requires forall i :: 0 <= i < |lines| ==> '\n' !in lines[i]
    ensures forall j :: 0 <= j < |Normalize(lines)| ==> '\n' !in Normalize(lines)[j]
  {
    var d := Dedent(lines, CommonIndent(lines));
    DedentNoBreak(lines, CommonIndent(lines));
    TrimKeepsNonBlankCore(d);
    var out := Trim(d);
    var a: nat :| RunAt(d, out, a);
    forall j | 0 <= j < |out|
      ensures '\n' !in out[j]
    {
      assert out[j] == d[a + j];
    }
  }

  /**
   * The value's lines are a contiguous run of the dedented input lines, so
   * there are never more of them than input lines.
   */
  lemma BlockLinesShape(raw: string)
    ensures var lines := Split(raw);
      var out := BlockLines(raw);
      && |out| <= |lines|
      && exists a: nat :: DedentedRunAt(lines, CommonIndent(lines), out, a)
  {
    NormalizeShape(Split(raw));
  }

  lemma JoinEmpty(lines: seq<string>)
    requires lines != [] ==> |lines[0]| > 0
    ensures Join(lines) == "" <==> lines == []
  {
    if |lines| > 1 {
      assert Join(lines) == lines[0] + "\n" + Join(lines[1..]);
    }
  }

  lemma DedentNoBreak(lines: seq<string>, ind: nat)
    requires forall i :: 0 <= i < |lines| ==> '\n' !in lines[i]
    ensures forall i :: 0 <= i < |lines| ==> '\n' !in Dedent(lines, ind)[i]
  {
    forall i | 0 <= i < |lines|
      ensures '\n' !in Dedent(lines, ind)[i]
    {
    }
  }

  /** No line of the value holds a line break. */
  lemma BlockLinesHaveNoBreak(raw: string)
    ensures forall j :: 0 <= j < |BlockLines(raw)| ==> '\n' !in BlockLines(raw)[j]
  {
    NormalizeNoBreak(Split(raw));
  }

  /** The value is empty exactly when every input line is blank. */
  lemma BlockStringEmpty(raw: string)
    ensures BlockStringValue(raw) == "" <==> forall i :: 0 <= i < |Split(raw)| ==> Blank(Split(raw)[i])
  {
    var lines := Split(raw);
    var out := BlockLines(raw);
    assert out == Normalize(lines);
    NormalizeEnds(lines);
    assert out != [] ==> |out[0]| > 0;
    JoinEmpty(out);
    assert BlockStringValue(raw) == Join(out);
    assert (BlockStringValue(raw) == "") == (out == []);
    assert (out == []) == (forall i :: 0 <= i < |lines| ==> Blank(lines[i]));
    assert lines == Split(raw);
    assert (forall i :: 0 <= i < |lines| ==> Blank(lines[i])) == (forall i :: 0 <= i < |Split(raw)| ==> Blank(Split(raw)[i]));
  }

  /**
   * A non-empty value splits back into its lines, the first and last of
   * which are not blank.
   */
  lemma BlockStringSplits(raw: string)
    requires BlockStringValue(raw) != ""
    ensures var v := BlockStringValue(raw);
      Split(v) == BlockLines(raw) && !Blank(Split(v)[0]) && !Blank(Split(v)[|Split(v)| - 1])
  {
    var lines := Split(raw);
    var out := BlockLines(raw);
    assert out == Normalize(lines);
    assert BlockStringValue(raw) == Join(out);
    assert out != [];
    NormalizeEnds(lines);
    NormalizeNoBreak(lines);
    SplitJoin(out);
  }

  /** A single non-blank line is its own value; a single blank line gives "". */
  lemma SingleLine(raw: string)
    requires '\n' !in raw
    ensures BlockStringValue(raw) == if Blank(raw) then "" else raw
  {
    assert Split(raw) == [raw];
    assert CommonIndent([raw]) == 0;
    assert Dedent([raw], 0) == [raw];
  }

  /** The lines of the example below, joined. */
  lemma NewStyleJoin()
    ensures Join(["", "New style comments", "Another line", ""])
         == "\n" + "New style comments" + "\n" + "Another line" + "\n"
  {
    JoinFour("", "New style comments", "Another line", "");
  }
  lemma JoinFour(a: string, b: string, c: string, d: string)
    ensures Join([a, b, c, d]) == a + "\n" + b + "\n" + c + "\n" + d
  {
    assert [a, b, c, d][1..] == [b, c, d];
    assert [b, c, d][1..] == [c, d];
    assert [c, d][1..] == [d];
    assert Join([c, d]) == c + "\n" + d;
    assert Join([b, c, d]) == b + "\n" + (c + "\n" + d);
    assert Join([a, b, c, d]) == a + "\n" + (b + "\n" + (c + "\n" + d));
  }

  /** The example's lines have no indentation in common. */
  lemma NewStyleIndent()
    ensures CommonIndent(["", "New style comments", "Another line", ""]) == 0
  {
    var lines := ["", "New style comments", "Another line", ""];
    assert IndentOf(lines[1]) == 0;
    assert !Blank(lines[1]);
    ZeroIndentIsCommon(lines, 1);
  }

  /** Trimming the example's lines drops the empty first and last lines. */
  lemma NewStyleTrim()
    ensures Trim(["", "New style comments", "Another line", ""]) == ["New style comments", "Another line"]
  {
    var lines := ["", "New style comments", "Another line", ""];
    assert lines[1][0] == 'N' && !IsWhite(lines[1][0]);
    assert Blank(lines[0]) && !Blank(lines[1]);
    LeadingBlanksUnique(lines, 1);
    var rest := lines[1..];
    assert rest[1][0] == 'A' && !IsWhite(rest[1][0]);
    assert Blank(rest[2]) && !Blank(rest[1]);
    TrailingBlanksUnique(rest, 1);
  }

  /** Splitting the example's raw text gives its four lines back. */
  lemma NewStyleSplit()
    ensures Split("\n" + "New style comments" + "\n" + "Another line" + "\n")
         == ["", "New style comments", "Another line", ""]
  {
    var lines := ["", "New style comments", "Another line", ""];
    assert forall i :: 0 <= i < |lines| ==> '\n' !in lines[i];
    NewStyleJoin();
    SplitJoin(lines);
  }

  /** Dedenting nothing and trimming leave the two lines of text. */
  lemma NewStyleLines(raw: string)
    requires Split(raw) == ["", "New style comments", "Another line", ""]
    ensures BlockLines(raw) == ["New style comments", "Another line"]
  {
    var lines := ["", "New style comments", "Another line", ""];
    NewStyleIndent();
    NewStyleTrim();
    assert Dedent(lines, 0) == lines;
  }

  /** The two lines of text, joined. */
  lemma NewStyleOut()
    ensures Join(["New style comments", "Another line"]) == "New style comments" + "\n" + "Another line"
  {
    var out := ["New style comments", "Another line"];
    assert out[1..] == ["Another line"];
  }

  /**
   * A description between triple quotes that starts and ends with a line
   * break keeps only its two lines of text.
   */
  lemma NewStyleComment()
    ensures BlockStringValue("\n" + "New style comments" + "\n" + "Another line" + "\n")
         == "New style comments" + "\n" + "Another line"
  {
    NewStyleSplit();
    NewStyleLines("\n" + "New style comments" + "\n" + "Another line" + "\n");
    NewStyleOut();
  }

  // ---------------------------------------------------------------------------
  // The procedures of the source

  method LeadingWhitespace(s: string) returns (n: nat)
    ensures n == IndentOf(s)
  {
    n := 0;
    while n < |s| && IsWhite(s[n])
      invariant n <= |s|
      invariant forall k :: 0 <= k < n ==> IsWhite(s[k])
    {
      n := n + 1;
    }
  }

  method IsBlank(s: string) returns (b: bool)
    ensures b <==> forall k :: 0 <= k < |s| ==> s[k] == ' ' || s[k] == '\t'
  {
    if |s| == 0 {
      return true;
    }
    var n := LeadingWhitespace(s);
    b := n == |s|;
  }

  method BlockStringIndentation(lines: seq<string>) returns (ind: nat)
    ensures ind == CommonIndent(lines)
  {
    var commonIndent: Option<nat> := None;
    var i := 1;
    while i < |lines|
      invariant 1 <= i && (i <= |lines| || i == 1)
      invariant commonIndent == MinIndent(lines, i)
    {
      var l := lines[i];
      var indent := LeadingWhitespace(l);
      if indent == |l| {
        // blank lines do not count
        i := i + 1;
        continue;
      }
      if indent == 0 {
        ZeroIndentIsCommon(lines, i);
        return 0;
      }
      if commonIndent.None? || indent < commonIndent.value {
        commonIndent := Some(indent);
      }
      i := i + 1;
    }
    if commonIndent.None? {
      return 0;
    }
    return commonIndent.value;
  }

  /** Removes `ind` characters from every line but the first, emptying the shorter ones. */
  method DedentLines(lines: array<string>, ind: nat)
    requires ind > 0
    modifies lines
    ensures lines[..] == Dedent(old(lines[..]), ind)
  {
    ghost var parts := lines[..];
    var i := 1;
    while i < lines.Length
      invariant 1 <= i <= lines.Length || lines.Length == 0
      invariant forall k :: 0 <= k < i && k < lines.Length ==> lines[k] == Dedent(parts, ind)[k]
      invariant forall k :: i <= k < lines.Length ==> lines[k] == parts[k]
    {
      var l := lines[i];
      if |l| < ind {
        lines[i] := "";
        i := i + 1;
        continue;
      }
      lines[i] := l[ind..];
      i := i + 1;
    }
  }

  /** The number of blank lines at the start of `lines`. */
  method CountLeadingBlanks(lines: array<string>) returns (trimStart: nat)
    ensures trimStart == LeadingBlanks(lines[..])
  {
    trimStart := 0;
    while trimStart < lines.Length
      invariant trimStart <= lines.Length
      invariant forall k :: 0 <= k < trimStart ==> Blank(lines[..][k])
    {
      var blank := IsBlank(lines[trimStart]);
      if !blank {
        assert !Blank(lines[..][trimStart]);
        break;
      }
      trimStart := trimStart + 1;
    }
    LeadingBlanksUnique(lines[..], trimStart);
  }

  /** The number of blank lines at the end of `lines[start..]`, its first line excepted. */
  method CountTrailingBlanks(lines: array<string>, start: nat) returns (trimEnd: nat)
    requires start <= lines.Length
    ensures trimEnd == TrailingBlanks(lines[start..])
  {
    ghost var rest := lines[start..];
    var len := lines.Length - start;
    trimEnd := 0;
    var i := len - 1;
    while i > 0
      invariant i == len - 1 - trimEnd
      invariant trimEnd == 0 || trimEnd < len
      invariant forall k :: i < k < len ==> Blank(rest[k])
    {
      var blank := IsBlank(lines[start + i]);
      assert lines[start + i] == rest[i];
      if !blank {
        break;
      }
      trimEnd := trimEnd + 1;
      i := i - 1;
    }
    TrailingBlanksUnique(rest, trimEnd);
  }

  lemma TrimBetween(d: seq<string>, trimStart: nat, trimEnd: nat)
    requires trimStart == LeadingBlanks(d)
    requires trimEnd == TrailingBlanks(d[trimStart..])
    ensures trimStart <= |d| - trimEnd && Trim(d) == d[trimStart..|d| - trimEnd]
  {
  }

  method NewLines(parts: seq<string>) returns (lines: array<string>)
    ensures fresh(lines) && lines[..] == parts
  {
    lines := new string[|parts|](i requires 0 <= i < |parts| => parts[i]);
  }

  /** The lines between the leading and the trailing blank lines. */
  method TrimLines(lines: array<string>) returns (r: seq<string>)
    ensures r == Trim(lines[..])
  {
    var trimStart := CountLeadingBlanks(lines);
    var trimEnd := CountTrailingBlanks(lines, trimStart);
    assert lines[..][trimStart..] == lines[trimStart..];
    TrimBetween(lines[..], trimStart, trimEnd);
    r := lines[trimStart..lines.Length - trimEnd];
  }

  method BlockString(raw: string) returns (r: string)
    ensures r == BlockStringValue(raw)
  {
    var parts := Split(raw);
    var lines := NewLines(parts);
    var ind := BlockStringIndentation(lines[..]);

    // remove the common indentation from all lines but the first
    if ind > 0 {
      DedentLines(lines, ind);
    }
    assert lines[..] == Dedent(parts, CommonIndent(parts));

    // remove leading and trailing blank lines
    var trimmed := TrimLines(lines);
    assert trimmed == BlockLines(raw);
    r := Join(trimmed);
  }
}
