/** Question extraction from the text of a training document: each line is
    stripped and tried against the five markers in order; the first marker
    that matches yields a question, which is kept unless it is empty or
    already collected; after each line the scan stops once `max_q` questions
    are collected. */
module Extraction {
  import opened Wrappers
  import opened Text
  import opened Markers

  /** The characters removed by the trailing clean-up `[　\s]+$`. */
  predicate TrailingBlank(c: char) {
    c == '\U{3000}' || IsSpace(c)
  }

  /** A capture as the extractor keeps it: stripped, then trailing blanks
      (the ideographic space among them) removed. */
  function Clean(c: string): (r: string)
    ensures r == [] || (!IsSpace(r[0]) && !IsSpace(r[|r| - 1]))
  {
    RStrip(Strip(c), TrailingBlank)
  }

  /** The ideographic space is already whitespace to `strip()`, so the
      trailing clean-up never removes anything further. */
  lemma CleanIsStrip(c: string)
    ensures Clean(c) == Strip(c)
  {
    var t := Strip(c);
    assert t == [] || !TrailingBlank(t[|t| - 1]);
  }

  /** The document's lines, each stripped. */
  function StrippedLines(text: string): (lines: seq<string>)
    ensures |lines| == |SplitLines(text)|
    ensures forall k :: 0 <= k < |lines| ==> lines[k] == Strip(SplitLines(text)[k])
  {
    var raw := SplitLines(text);
    seq(|raw|, k requires 0 <= k < |raw| => Strip(raw[k]))
  }

  /** The question a stripped line yields, if any marker matches it. */
  function Candidate(ln: string): (r: Option<string>)
    ensures r.Some? ==> r.value == [] || (!IsSpace(r.value[0]) && !IsSpace(r.value[|r.value| - 1]))
  {
    match MatchLine(ln)
    case Some(c) => Some(Clean(c))
    case None => None
  }

  /** What each line of the document yields, in order. */
  function Captures(text: string): (cs: seq<Option<string>>)
    ensures |cs| == |StrippedLines(text)|
    ensures forall k :: 0 <= k < |cs| ==> cs[k] == Candidate(StrippedLines(text)[k])
  {
    var lines := StrippedLines(text);
    seq(|lines|, k requires 0 <= k < |lines| => Candidate(lines[k]))
  }

  /** One line's effect on the questions collected so far: its question is
      appended unless it is empty or already present. */
  function Add(qs: seq<string>, c: Option<string>): seq<string> {
    match c
    case Some(q) => if q != [] && q !in qs then qs + [q] else qs
    case None => qs
  }

  /** The scan over the remaining lines, stopping after the first line at
      which at least `maxQ` questions are collected. */
  function Collect(cs: seq<Option<string>>, maxQ: int, qs: seq<string>): seq<string>
    decreases |cs|
  {
    if cs == [] then qs
    else
      var next := Add(qs, cs[0]);
      if |next| >= maxQ then next else Collect(cs[1..], maxQ, next)
  }

  /** `extract_questions(doc_text, max_q)`. */
  function ExtractQuestions(text: string, maxQ: int): seq<string> {
    Collect(Captures(text), maxQ, [])
  }

  /** The inner loop of the extractor: try the markers in order and take
      the capture of the first that matches. */
  method MatchFirst(ln: string) returns (c: Option<string>)
    ensures c == MatchLine(ln)
  {
    var j := 0;
    while j < |Order|
      invariant 0 <= j <= |Order|
      invariant FirstCapture(ln, Order[j..]) == MatchLine(ln)
    {
      var m := Capture(Order[j], ln);
      if m.Some? {
        return Some(ln[m.value..]);
      }
      j := j + 1;
    }
    return None;
  }

  /** The body of the outer loop for one line. */
  method AddLine(qs: seq<string>, ln: string) returns (next: seq<string>)
    ensures next == Add(qs, Candidate(ln))
  {
    next := qs;
    var m := MatchFirst(ln);
    if m.Some? {
      var q := Clean(m.value);
      if q != [] && q !in qs {
        next := qs + [q];
      }
    }
  }

  /** The extractor as the source writes it: a loop over the stripped lines
      that keeps each new non-empty question and stops once `maxQ` are
      collected. */
  method ExtractQuestionsLoop(text: string, maxQ: int) returns (qs: seq<string>)
    ensures qs == ExtractQuestions(text, maxQ)
  {
    var lines := StrippedLines(text);
    ghost var cs := Captures(text);
    qs := [];
    var i := 0;
    while i < |lines|
      invariant 0 <= i <= |lines|
      invariant Collect(cs[i..], maxQ, qs) == ExtractQuestions(text, maxQ)
    {
      qs := AddLine(qs, lines[i]);
      assert cs[i..][1..] == cs[i + 1..];
      if |qs| >= maxQ {
        break;
      }
      i := i + 1;
    }
  }

  // ---------------------------------------------------------------------
  // A reference description: the distinct non-empty questions, in
  // document order, cut to `maxQ`.
  // ---------------------------------------------------------------------

  predicate NoDuplicates(xs: seq<string>) {
    forall i, j :: 0 <= i < j < |xs| ==> xs[i] != xs[j]
  }

  /** The first occurrence of each element of `xs` not in `seen`, in order. */
  function DistinctFrom(seen: seq<string>, xs: seq<string>): seq<string>
    decreases |xs|
  {
    if xs == [] then []
    else if xs[0] in seen then DistinctFrom(seen, xs[1..])
    else [xs[0]] + DistinctFrom(seen + [xs[0]], xs[1..])
  }

  /** It keeps exactly the elements not seen before, each once. */
  lemma {:induction false} DistinctFromSpec(seen: seq<string>, xs: seq<string>)
    ensures var r := DistinctFrom(seen, xs);
      (forall x :: x in r <==> x in xs && x !in seen) && NoDuplicates(r)
    decreases |xs|
  {
    if xs != [] {
      assert forall x :: x in xs <==> x == xs[0] || x in xs[1..];
      if xs[0] in seen {
        DistinctFromSpec(seen, xs[1..]);
      } else {
        var rest := DistinctFrom(seen + [xs[0]], xs[1..]);
        DistinctFromSpec(seen + [xs[0]], xs[1..]);
        assert xs[0] in seen + [xs[0]];
        assert forall k :: 0 <= k < |rest| ==> rest[k] in rest && rest[k] != xs[0];
      }
    }
  }

  function Distinct(xs: seq<string>): seq<string> {
    DistinctFrom([], xs)
  }

  /** The non-empty questions the lines yield, duplicates included. */
  function Candidates(cs: seq<Option<string>>): seq<string>
    decreases |cs|
  {
    if cs == [] then []
    else
      var here := match cs[0] case Some(q) => if q != [] then [q] else [] case None => [];
      here + Candidates(cs[1..])
  }

  /** A line whose question is missing, empty or already collected leaves
      both the scan and the reference unchanged. */
  lemma SkippedLine(cs: seq<Option<string>>, qs: seq<string>)
    requires cs != [] && Add(qs, cs[0]) == qs
    ensures DistinctFrom(qs, Candidates(cs)) == DistinctFrom(qs, Candidates(cs[1..]))
  {
    var rest := Candidates(cs[1..]);
    if cs[0].Some? && cs[0].value != [] {
      var q := cs[0].value;
      assert Candidates(cs) == [q] + rest;
      assert ([q] + rest)[1..] == rest;
    } else {
      assert Candidates(cs) == rest;
    }
  }

  /** A line with a new question contributes it first. */
  lemma KeptLine(cs: seq<Option<string>>, qs: seq<string>)
    requires cs != [] && Add(qs, cs[0]) != qs
    ensures Add(qs, cs[0]) == qs + [cs[0].value]
    ensures DistinctFrom(qs, Candidates(cs)) == [cs[0].value] + DistinctFrom(Add(qs, cs[0]), Candidates(cs[1..]))
  {
    var q := cs[0].value;
    var rest := Candidates(cs[1..]);
    assert Candidates(cs) == [q] + rest;
    assert ([q] + rest)[1..] == rest;
  }

  lemma TakeCons(q: string, xs: seq<string>, n: nat)
    requires n >= 1
    ensures Take([q] + xs, n) == [q] + Take(xs, n - 1)
  {
  }

  /** The induction step for a line that contributes a new question. */
  lemma KeptStep(cs: seq<Option<string>>, maxQ: int, qs: seq<string>)
    requires cs != [] && |qs| < maxQ
    requires Add(qs, cs[0]) != qs
    requires var next := Add(qs, cs[0]);
      |next| < maxQ ==>
      Collect(cs[1..], maxQ, next) == next + Take(DistinctFrom(next, Candidates(cs[1..])), maxQ - |next|)
    ensures Collect(cs, maxQ, qs) == qs + Take(DistinctFrom(qs, Candidates(cs)), maxQ - |qs|)
  {
    var next := Add(qs, cs[0]);
    var q := cs[0].value;
    var later := DistinctFrom(next, Candidates(cs[1..]));
    assert next == qs + [q] && DistinctFrom(qs, Candidates(cs)) == [q] + later by {
      KeptLine(cs, qs);
    }
    assert Take([q] + later, maxQ - |qs|) == [q] + Take(later, maxQ - |qs| - 1) by {
      TakeCons(q, later, maxQ - |qs|);
    }
    if |next| < maxQ {
      assert Collect(cs, maxQ, qs) == next + Take(later, maxQ - |next|);
      assert next + Take(later, maxQ - |next|) == qs + ([q] + Take(later, maxQ - |qs| - 1));
    } else {
      assert Collect(cs, maxQ, qs) == next;
      assert Take(later, 0) == [];
      assert next == qs + ([q] + Take(later, maxQ - |qs| - 1));
    }
  }

  lemma {:induction false} CollectIsDistinctPrefix(cs: seq<Option<string>>, maxQ: int, qs: seq<string>)
    requires |qs| < maxQ
    ensures Collect(cs, maxQ, qs) == qs + Take(DistinctFrom(qs, Candidates(cs)), maxQ - |qs|)
    decreases |cs|
  {
    if cs != [] {
      var next := Add(qs, cs[0]);
      if next == qs {
        SkippedLine(cs, qs);
        CollectIsDistinctPrefix(cs[1..], maxQ, qs);
      } else {
        if |next| < maxQ {
          CollectIsDistinctPrefix(cs[1..], maxQ, next);
        }
        KeptStep(cs, maxQ, qs);
      }
    }
  }

  /** With room for at least one question, the result is the distinct
      non-empty captures in document order, cut to `maxQ`. */
  lemma ExtractIsDistinctCandidates(text: string, maxQ: int)
    requires maxQ >= 1
    ensures ExtractQuestions(text, maxQ) == Take(Distinct(Candidates(Captures(text))), maxQ)
  {
    CollectIsDistinctPrefix(Captures(text), maxQ, []);
  }

  /** With `maxQ` below one, the check after the first line already stops
      the scan: only the first line can contribute. */
  lemma ExtractWithoutRoom(text: string, maxQ: int)
    requires maxQ < 1
    ensures var cs := Captures(text);
      ExtractQuestions(text, maxQ) == if cs == [] then [] else Candidates(cs[..1])
  {
    var cs := Captures(text);
    if cs != [] {
      assert cs[..1][1..] == [];
    }
  }

  // ---------------------------------------------------------------------
  // Consequences.
  // ---------------------------------------------------------------------

  lemma {:induction false} CandidatesSound(cs: seq<Option<string>>)
    ensures forall q :: q in Candidates(cs) ==> q != [] && exists k :: 0 <= k < |cs| && cs[k] == Some(q)
    decreases |cs|
  {
    if cs != [] {
      CandidatesSound(cs[1..]);
      forall q | q in Candidates(cs) ensures q != [] && exists k :: 0 <= k < |cs| && cs[k] == Some(q) {
        if cs[0] != Some(q) {
          var k :| 0 <= k < |cs[1..]| && cs[1..][k] == Some(q);
          assert cs[k + 1] == Some(q);
        }
      }
    }
  }

  lemma {:induction false} CandidatesComplete(cs: seq<Option<string>>)
    ensures forall k :: 0 <= k < |cs| && cs[k].Some? && cs[k].value != [] ==> cs[k].value in Candidates(cs)
    decreases |cs|
  {
    if cs != [] {
      CandidatesComplete(cs[1..]);
      forall k | 0 <= k < |cs| && cs[k].Some? && cs[k].value != [] ensures cs[k].value in Candidates(cs) {
        if k > 0 {
          assert cs[1..][k - 1] == cs[k];
        }
      }
    }
  }

  lemma FirstLineCandidates(cs: seq<Option<string>>)
    requires cs != []
    ensures |Candidates(cs[..1])| <= 1
  {
    assert cs[..1][1..] == [];
  }

  /** `max_q` bounds the result, except that a bound below one still lets
      the first line through. */
  lemma ExtractBound(text: string, maxQ: int)
    ensures |ExtractQuestions(text, maxQ)| <= if maxQ >= 1 then maxQ else 1
  {
    if maxQ >= 1 {
      ExtractIsDistinctCandidates(text, maxQ);
    } else {
      ExtractWithoutRoom(text, maxQ);
      if Captures(text) != [] {
        FirstLineCandidates(Captures(text));
      }
    }
  }

  lemma TakeNoDuplicates(xs: seq<string>, n: nat)
    requires NoDuplicates(xs)
    ensures NoDuplicates(Take(xs, n))
  {
  }

  /** No question is returned twice. */
  lemma ExtractNoDuplicates(text: string, maxQ: int)
    ensures NoDuplicates(ExtractQuestions(text, maxQ))
  {
    if maxQ >= 1 {
      ExtractIsDistinctCandidates(text, maxQ);
      DistinctFromSpec([], Candidates(Captures(text)));
      TakeNoDuplicates(Distinct(Candidates(Captures(text))), maxQ);
    } else {
      ExtractWithoutRoom(text, maxQ);
      if Captures(text) != [] {
        FirstLineCandidates(Captures(text));
      }
    }
  }

  /** Each question a scan collects is one of the candidates. */
  lemma CollectSound(cs: seq<Option<string>>, maxQ: int)
    ensures forall q :: q in Collect(cs, maxQ, []) ==> q in Candidates(cs)
  {
    if maxQ >= 1 {
      CollectIsDistinctPrefix(cs, maxQ, []);
      DistinctFromSpec([], Candidates(cs));
    } else if cs != [] {
      CandidatesSound(cs[..1]);
      CandidatesComplete(cs);
      assert cs[..1][1..] == [];
    }
  }

  /** Every question is the non-empty, stripped capture of some line. */
  lemma ExtractSound(text: string, maxQ: int)
    ensures var cs := Captures(text);
      forall q :: q in ExtractQuestions(text, maxQ) ==>
        q != [] && !IsSpace(q[0]) && !IsSpace(q[|q| - 1]) &&
        exists k :: 0 <= k < |cs| && cs[k] == Some(q)
  {
    var cs := Captures(text);
    CollectSound(cs, maxQ);
    CandidatesSound(cs);
  }

  /** When the scan ends with room to spare, every line's non-empty question
      was collected. */
  lemma ExtractComplete(text: string, maxQ: int)
    requires maxQ >= 1 && |ExtractQuestions(text, maxQ)| < maxQ
    ensures var cs := Captures(text);
      forall k :: 0 <= k < |cs| && cs[k].Some? && cs[k].value != [] ==> cs[k].value in ExtractQuestions(text, maxQ)
  {
    ExtractIsDistinctCandidates(text, maxQ);
    DistinctFromSpec([], Candidates(Captures(text)));
    CandidatesComplete(Captures(text));
  }

  /** Once a line is stripped, a marker's capture ends at a non-space
      character, so the `if q` guard of the extractor never rejects it. */
  lemma GuardNeverRejects(raw: string)
    ensures Candidate(Strip(raw)).Some? ==> Candidate(Strip(raw)).value != []
  {
    var ln := Strip(raw);
    if MatchLine(ln).Some? {
      var c := MatchLine(ln).value;
      MatchLineIsSuffix(ln);
      assert c[|c| - 1] == ln[|ln| - 1];
      StripKeepsLast(c);
      CleanIsStrip(c);
    }
  }

  /** So every line with a match yields a question. */
  lemma CapturesNonEmpty(text: string)
    ensures var cs := Captures(text);
      forall k :: 0 <= k < |cs| && cs[k].Some? ==> cs[k].value != []
  {
    forall k | 0 <= k < |Captures(text)| && Captures(text)[k].Some? ensures Captures(text)[k].value != [] {
      GuardNeverRejects(SplitLines(text)[k]);
    }
  }

  lemma CollectNothing(cs: seq<Option<string>>, maxQ: int)
    requires forall k :: 0 <= k < |cs| ==> cs[k] == None
    ensures Collect(cs, maxQ, []) == []
  {
    CollectSound(cs, maxQ);
    CandidatesSound(cs);
  }

  lemma NoMarkerNoCandidate(ln: string)
    requires !OpensMarker(ln)
    ensures Candidate(ln) == None
  {
    NoMarkerNoMatch(ln);
  }

  /** A document none of whose lines opens with a marker character yields
      no questions. */
  lemma NoMarkersNoQuestions(text: string, maxQ: int)
    requires forall k :: 0 <= k < |StrippedLines(text)| ==> !OpensMarker(StrippedLines(text)[k])
    ensures ExtractQuestions(text, maxQ) == []
  {
    var cs := Captures(text);
    forall k | 0 <= k < |cs| ensures cs[k] == None {
      NoMarkerNoCandidate(StrippedLines(text)[k]);
    }
    CollectNothing(cs, maxQ);
  }
}
