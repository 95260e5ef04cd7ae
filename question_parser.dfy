/** The parser that turns the chat model's reply into questions: the reply
    is stripped and split into lines; each line loses its bullet characters
    and surrounding whitespace, blank lines are skipped, each of the listed
    numbering prefixes is removed with the punctuation after it, and the
    scan stops once `n` questions are collected. */
module QuestionParser {
  import opened Wrappers
  import opened Text

  /** The characters of `strip(" ・-‐*●\t")`. */
  predicate IsBullet(c: char) {
    c == ' ' || c == '・' || c == '-' || c == '\U{2010}' || c == '*' || c == '●' || c == '\t'
  }

  /** The characters of `lstrip(".．:：）) 」　 ")`. */
  predicate IsPrefixPunct(c: char) {
    c == '.' || c == '．' || c == ':' || c == '：' || c == '）' || c == ')' || c == ' ' || c == '」' || c == '\U{3000}'
  }

  /** The numbering prefixes, tried in this order. */
  const Prefixes: seq<string> := ["Q1", "Q2", "Q3", "Q4", "１", "２", "３"]

  /** The prefix loop: each prefix in turn, if the line starts with it, is
      removed together with the punctuation that follows. The loop has no
      `break`, so a later prefix is also tried on what an earlier one left. */
  function Unprefix(line: string, ps: seq<string>): (r: string)
    ensures |r| <= |line| && r == line[|line| - |r|..]
    decreases |ps|
  {
    if ps == [] then line
    else
      var l := if StartsWith(line, ps[0]) then LStrip(line[|ps[0]|..], IsPrefixPunct) else line;
      Unprefix(l, ps[1..])
  }

  /** A response line with its bullets and surrounding whitespace removed. */
  function Trimmed(raw: string): string {
    Strip(StripBy(raw, IsBullet))
  }

  /** The question a response line gives, or `None` for a line that is
      blank once trimmed. */
  function ParseLine(raw: string): Option<string> {
    var l := Trimmed(raw);
    if l == [] then None else Some(Unprefix(l, Prefixes))
  }

  /** The lines of the model's reply, once stripped. */
  function ReplyLines(content: string): seq<string> {
    SplitLines(Strip(content))
  }

  /** `f` applied to each element, in order. */
  function Each<A, B>(xs: seq<A>, f: A -> B): (ys: seq<B>)
    ensures |ys| == |xs|
  {
    if xs == [] then [] else [f(xs[0])] + Each(xs[1..], f)
  }

  lemma {:induction false} EachAt<A, B>(xs: seq<A>, f: A -> B, i: nat)
    requires i < |xs|
    ensures Each(xs, f)[i] == f(xs[i])
  {
    if i > 0 {
      assert xs[1..][i - 1] == xs[i];
      EachAt(xs[1..], f, i - 1);
    }
  }

  /** What each line gives, in order. */
  function LineResults(lines: seq<string>): (rs: seq<Option<string>>)
    ensures |rs| == |lines|
  {
    Each(lines, ParseLine)
  }

  lemma LineResultsAt(lines: seq<string>, i: nat)
    requires i < |lines|
    ensures LineResults(lines)[i] == ParseLine(lines[i])
  {
    EachAt(lines, ParseLine, i);
  }

  /** The scan over the remaining lines; a skipped line does not reach the
      length check. */
  function Parse(rs: seq<Option<string>>, n: int, qs: seq<string>): seq<string>
    decreases |rs|
  {
    if rs == [] then qs
    else
      match rs[0]
      case None => Parse(rs[1..], n, qs)
      case Some(q) =>
        var next := qs + [q];
        if |next| >= n then next else Parse(rs[1..], n, next)
  }

  /** The questions parsed from the model's reply `content`. */
  function ParseQuestions(content: string, n: int): seq<string> {
    Parse(LineResults(ReplyLines(content)), n, [])
  }

  /** The prefix loop of the source, over the prefixes `ps`. */
  method UnprefixLoop(trimmed: string, ps: seq<string>) returns (line: string)
    ensures line == Unprefix(trimmed, ps)
  {
    line := trimmed;
    var j := 0;
    while j < |ps|
      invariant 0 <= j <= |ps|
      invariant Unprefix(line, ps[j..]) == Unprefix(trimmed, ps)
    {
      assert ps[j..][1..] == ps[j + 1..];
      if StartsWith(line, ps[j]) {
        line := LStrip(line[|ps[j]|..], IsPrefixPunct);
      }
      j := j + 1;
    }
  }

  /** The body of the outer loop for one line: trim it, and unless it is
      blank run the prefix loop over it. */
  method ParseLineLoop(raw: string) returns (r: Option<string>)
    ensures r == ParseLine(raw)
  {
    var line := Trimmed(raw);
    if line == [] {
      return None;
    }
    line := UnprefixLoop(line, Prefixes);
    return Some(line);
  }

  /** One step of the scan, at line `i`. */
  lemma ParseStep(rs: seq<Option<string>>, i: nat, n: int, qs: seq<string>)
    requires i < |rs|
    ensures rs[i].None? ==> Parse(rs[i..], n, qs) == Parse(rs[i + 1..], n, qs)
    ensures rs[i].Some? && |qs| + 1 >= n ==> Parse(rs[i..], n, qs) == qs + [rs[i].value]
    ensures rs[i].Some? && |qs| + 1 < n ==> Parse(rs[i..], n, qs) == Parse(rs[i + 1..], n, qs + [rs[i].value])
  {
    assert rs[i..][0] == rs[i];
    assert rs[i..][1..] == rs[i + 1..];
  }

  /** The loop body for line `i`: the question it adds, if any, and
      whether the scan stops there. */
  method ScanLine(lines: seq<string>, i: nat, n: int, qs: seq<string>) returns (qs': seq<string>, stop: bool)
    requires i < |lines|
    ensures var rs := LineResults(lines);
      Parse(rs[i..], n, qs) == if stop then qs' else Parse(rs[i + 1..], n, qs')
  {
    var r := ParseLineLoop(lines[i]);
    LineResultsAt(lines, i);
    ParseStep(LineResults(lines), i, n, qs);
    if r.None? {
      return qs, false;
    }
    qs' := qs + [r.value];
    stop := |qs'| >= n;
  }

  /** The parser as the source writes it: a loop over the reply's lines,
      skipping blank ones, that stops once `n` questions are collected. */
  method ParseQuestionsLoop(content: string, n: int) returns (qs: seq<string>)
    ensures qs == ParseQuestions(content, n)
  {
    var lines := SplitLines(Strip(content));
    ghost var rs := LineResults(lines);
    assert rs[0..] == rs;
    qs := [];
    var i := 0;
    while i < |lines|
      invariant 0 <= i <= |lines| == |rs|
      invariant Parse(rs[i..], n, qs) == ParseQuestions(content, n)
    {
      var stop;
      qs, stop := ScanLine(lines, i, n, qs);
      if stop {
        return;
      }
      i := i + 1;
    }
    assert rs[i..] == [];
  }

  // ---------------------------------------------------------------------
  // A reference description: the questions of the non-blank lines, in
  // order, cut to `n` (or to one when `n` is below one).
  // ---------------------------------------------------------------------

  /** The questions of all non-blank lines, in order. */
  function Kept(rs: seq<Option<string>>): seq<string>
    decreases |rs|
  {
    if rs == [] then []
    else
      match rs[0]
      case None => Kept(rs[1..])
      case Some(q) => [q] + Kept(rs[1..])
  }

  /** How many questions the scan can return: a limit below one still lets
      the first question through, since the check follows the append. */
  function Cap(n: int): nat {
    if n >= 1 then n else 1
  }

  lemma {:induction false} ParseIsPrefix(rs: seq<Option<string>>, n: int, qs: seq<string>)
    requires |qs| < Cap(n)
    ensures Parse(rs, n, qs) == qs + Take(Kept(rs), Cap(n) - |qs|)
    decreases |rs|
  {
    if rs != [] {
      match rs[0]
      case None =>
        ParseIsPrefix(rs[1..], n, qs);
      case Some(q) =>
        var next := qs + [q];
        var later := Kept(rs[1..]);
        assert Kept(rs) == [q] + later;
        if |next| >= n {
          assert Take([q] + later, Cap(n) - |qs|) == [q];
        } else {
          ParseIsPrefix(rs[1..], n, next);
          assert Take([q] + later, Cap(n) - |qs|) == [q] + Take(later, Cap(n) - |next|);
        }
    }
  }

  /** The parsed questions are the first `Cap(n)` questions of the reply's
      non-blank lines, in line order. */
  lemma ParseQuestionsIsTake(content: string, n: int)
    ensures ParseQuestions(content, n) == Take(Kept(LineResults(ReplyLines(content))), Cap(n))
  {
    ParseIsPrefix(LineResults(ReplyLines(content)), n, []);
  }

  /** For `n >= 1` at most `n` questions come back. */
  lemma ParseQuestionsBound(content: string, n: int)
    ensures |ParseQuestions(content, n)| <= Cap(n)
    ensures n >= 1 ==> |ParseQuestions(content, n)| <= n
  {
    ParseQuestionsIsTake(content, n);
  }

  /** Each kept question is the result of some line. */
  lemma {:induction false} KeptSound(rs: seq<Option<string>>)
    ensures forall q :: q in Kept(rs) ==> exists i :: 0 <= i < |rs| && rs[i] == Some(q)
    decreases |rs|
  {
    if rs != [] {
      KeptSound(rs[1..]);
      forall q | q in Kept(rs) ensures exists i :: 0 <= i < |rs| && rs[i] == Some(q) {
        if rs[0] != Some(q) {
          var i :| 0 <= i < |rs[1..]| && rs[1..][i] == Some(q);
          assert rs[i + 1] == rs[1..][i];
        }
      }
    }
  }

  /** Every returned question is the result of some line, and a line
      has a result exactly when it is not blank once trimmed. */
  lemma ParseSound(rs: seq<Option<string>>, n: int)
    ensures forall q :: q in Parse(rs, n, []) ==> exists i :: 0 <= i < |rs| && rs[i] == Some(q)
  {
    ParseIsPrefix(rs, n, []);
    KeptSound(rs);
  }

  lemma ParseLineSkipsBlank(raw: string)
    ensures ParseLine(raw).None? <==> Trimmed(raw) == []
  {
  }

  lemma ParseNothing(rs: seq<Option<string>>, n: int)
    requires forall k :: 0 <= k < |rs| ==> rs[k] == None
    ensures Parse(rs, n, []) == []
  {
    ParseSound(rs, n);
  }

  /** A reply whose lines are all blank once trimmed gives no questions. */
  lemma BlankReply(content: string, n: int)
    requires forall i :: 0 <= i < |ReplyLines(content)| ==> Trimmed(ReplyLines(content)[i]) == []
    ensures ParseQuestions(content, n) == []
  {
    var lines := ReplyLines(content);
    var rs := LineResults(lines);
    forall k | 0 <= k < |rs| ensures rs[k] == None {
      LineResultsAt(lines, k);
    }
    ParseNothing(rs, n);
  }

  /** A prefix is removed with the punctuation after it, provided no earlier
      prefix matched the line and no later one matches what remains. */
  lemma {:induction false} UnprefixAt(line: string, ps: seq<string>, i: nat)
    requires i < |ps| && StartsWith(line, ps[i])
    requires forall k :: 0 <= k < i ==> !StartsWith(line, ps[k])
    requires forall k :: i < k < |ps| ==> !StartsWith(LStrip(line[|ps[i]|..], IsPrefixPunct), ps[k])
    ensures Unprefix(line, ps) == LStrip(line[|ps[i]|..], IsPrefixPunct)
    decreases |ps|
  {
    if i == 0 {
      UnprefixNone(LStrip(line[|ps[0]|..], IsPrefixPunct), ps[1..]);
    } else {
      forall k | 0 <= k < i - 1 ensures !StartsWith(line, ps[1..][k]) {
        assert ps[1..][k] == ps[k + 1];
      }
      forall k | i - 1 < k < |ps[1..]| ensures !StartsWith(LStrip(line[|ps[i]|..], IsPrefixPunct), ps[1..][k]) {
        assert ps[1..][k] == ps[k + 1];
      }
      UnprefixAt(line, ps[1..], i - 1);
    }
  }

  /** A line that starts with none of the prefixes is left alone. */
  lemma {:induction false} UnprefixNone(line: string, ps: seq<string>)
    requires forall k :: 0 <= k < |ps| ==> !StartsWith(line, ps[k])
    ensures Unprefix(line, ps) == line
    decreases |ps|
  {
    if ps != [] {
      forall k | 0 <= k < |ps[1..]| ensures !StartsWith(line, ps[1..][k]) {
        assert ps[1..][k] == ps[k + 1];
      }
      UnprefixNone(line, ps[1..]);
    }
  }

  /** Trimming removes the leading bullets of a line and leaves a body
      with no bullet or whitespace at either end alone. */
  lemma TrimmedBulleted(b: string, body: string)
    requires forall k :: 0 <= k < |b| ==> IsBullet(b[k])
    requires body != [] && !IsBullet(body[0]) && !IsSpace(body[0])
    requires !IsBullet(body[|body| - 1]) && !IsSpace(body[|body| - 1])
    ensures Trimmed(b + body) == body
  {
    LStripPrefix(b, body, IsBullet);
    assert StripBy(b + body, IsBullet) == RStrip(body, IsBullet) == body;
    StripStripped(body);
  }

  lemma BulletedNumberedTrimmed()
    ensures Trimmed("- Q1. 感想は？") == "Q1. 感想は？"
  {
    assert "- Q1. 感想は？" == "- " + "Q1. 感想は？";
    TrimmedBulleted("- ", "Q1. 感想は？");
  }

  lemma BulletedNumberedPunct()
    ensures LStrip("Q1. 感想は？"[2..], IsPrefixPunct) == "感想は？"
  {
    assert "Q1. 感想は？"[2..] == ". " + "感想は？";
    LStripPrefix(". ", "感想は？", IsPrefixPunct);
  }

  lemma BulletedNumberedUnprefixed()
    ensures Unprefix("Q1. 感想は？", Prefixes) == "感想は？"
  {
    BulletedNumberedPunct();
    UnprefixAt("Q1. 感想は？", Prefixes, 0);
  }

  /** A numbered, bulleted line loses its bullet, its number and the
      punctuation after the number. */
  lemma BulletedNumberedLine()
    ensures ParseLine("- Q1. 感想は？") == Some("感想は？")
  {
    BulletedNumberedTrimmed();
    BulletedNumberedUnprefixed();
  }

  lemma NumberOnlyTrimmed()
    ensures Trimmed("Q1.") == "Q1."
  {
    assert "Q1." == "" + "Q1.";
    TrimmedBulleted("", "Q1.");
  }

  lemma NumberOnlyUnprefixed()
    ensures Unprefix("Q1.", Prefixes) == ""
  {
    assert "Q1."[2..] == "." + "";
    LStripPrefix(".", "", IsPrefixPunct);
    UnprefixAt("Q1.", Prefixes, 0);
  }

  /** Since the prefix loop runs after the blank-line check, a line that is
      only a number gives an empty question. */
  lemma NumberOnlyLine()
    ensures ParseLine("Q1.") == Some("")
  {
    NumberOnlyTrimmed();
    NumberOnlyUnprefixed();
  }
}
