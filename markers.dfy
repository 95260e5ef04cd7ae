/** The five question markers of `extract_questions` in src/pdf_utils.py.

    Each marker is a Python regular expression anchored at the start of a
    line and ending in a capture of "at least one more character, up to the
    end of the line". A marker is modelled twice:

    - `Capture` is a hand-written matcher per marker that says directly
      where the captured text starts;
    - `Try` is a reference: a depth-first search over the marker's
      sequence of atoms that tries the alternatives of every greedy
      quantifier longest first, the way Python's backtracking engine does.

    `CaptureIsBacktracking` proves the two agree on every string. This is
    what makes corner cases such as "Q12" (captures "2": the digit run gives
    a digit back so that the capture is not empty) part of the model rather
    than an accident of it. */
module Markers {
  import opened Wrappers
  import opened Text

  /** `Q` and full-width `Ｑ`. */
  const QLetters: set<char> := {'Q', 'Ｑ'}

  /** ASCII and full-width colon. */
  const Colons: set<char> := {':', '：'}

  /** The optional punctuation after a question number: colons, full stops,
      closing parentheses (ASCII and full-width) and a hyphen. */
  const NumberPunct: set<char> := {':', '：', '.', '．', ')', '）', '-'}

  /** The markers, in the order the extractor tries them. */
  datatype Marker =
    | ColonQ        // Q, spaces, colon, spaces, text
    | NumberedQ     // Q, spaces, number, spaces, optional punctuation, spaces, text
    | NumberedMon   // 問, spaces, number, spaces, optional punctuation, spaces, text
    | BracketedMon  // optional 【, 問, number, optional 】, spaces, text
    | MondaiColon   // 問題, spaces, colon, spaces, text

  const Order: seq<Marker> := [ColonQ, NumberedQ, NumberedMon, BracketedMon, MondaiColon]

  // ---------------------------------------------------------------------
  // Hand-written matchers. Each returns the index where the capture starts;
  // the capture itself runs to the end of the line.
  // ---------------------------------------------------------------------

  /** Where the capture starts when greedy spaces at `i` are followed by the
      capture: after the spaces if anything is left, otherwise the spaces
      give back their last character, otherwise there is no match. */
  function AfterSpaces(s: string, i: nat): (r: Option<nat>)
    requires i <= |s|
    ensures r.Some? ==> i <= r.value < |s|
    ensures r.None? <==> i == |s|
  {
    var j := SpaceEnd(s, i);
    if j < |s| then Some(j) else if j > i then Some(|s| - 1) else None
  }

  /** Spaces, optional number punctuation, spaces, capture; starting right
      after the longest digit run. */
  function AfterNumberDigits(s: string, d: nat): (r: Option<nat>)
    requires d <= |s|
    ensures r.Some? ==> d <= r.value < |s|
  {
    var x := SpaceEnd(s, d);
    if x < |s| then
      if s[x] in NumberPunct then
        match AfterSpaces(s, x + 1)
        case Some(p) => Some(p)
        case None => Some(x)
      else Some(x)
    else if x > d then Some(|s| - 1)
    else None
  }

  /** Spaces, a digit run, then `AfterNumberDigits`. When nothing follows
      the digits, the digit run gives back its last digit, which becomes the
      capture. */
  function AfterNumber(s: string, i: nat): (r: Option<nat>)
    requires i <= |s|
    ensures r.Some? ==> i < r.value < |s|
  {
    var b := SpaceEnd(s, i);
    var d := DigitEnd(s, b);
    if d == b then None
    else
      match AfterNumberDigits(s, d)
      case Some(p) => Some(p)
      case None => if d - 1 > b then Some(d - 1) else None
  }

  /** Optional `】`, spaces, capture; right after the longest digit run. */
  function AfterBracketDigits(s: string, d: nat): (r: Option<nat>)
    requires d <= |s|
    ensures r.Some? ==> d <= r.value < |s|
  {
    if d < |s| && s[d] == '】' then
      match AfterSpaces(s, d + 1)
      case Some(p) => Some(p)
      case None => Some(d)
    else AfterSpaces(s, d)
  }

  /** A digit run directly at `i`, then `AfterBracketDigits`. */
  function AfterBracketNumber(s: string, i: nat): (r: Option<nat>)
    requires i <= |s|
    ensures r.Some? ==> i < r.value < |s|
  {
    var d := DigitEnd(s, i);
    if d == i then None
    else
      match AfterBracketDigits(s, d)
      case Some(p) => Some(p)
      case None => if d - 1 > i then Some(d - 1) else None
  }

  /** Where marker `m` puts the start of its capture in `s`, if it matches. */
  function Capture(m: Marker, s: string): (r: Option<nat>)
    ensures r.Some? ==> r.value < |s|
  {
    var a := SpaceEnd(s, 0);
    match m
    case ColonQ =>
      if a < |s| && s[a] in QLetters then
        var b := SpaceEnd(s, a + 1);
        if b < |s| && s[b] in Colons then AfterSpaces(s, b + 1) else None
      else None
    case NumberedQ =>
      if a < |s| && s[a] in QLetters then AfterNumber(s, a + 1) else None
    case NumberedMon =>
      if a < |s| && s[a] == '問' then AfterNumber(s, a + 1) else None
    case BracketedMon =>
      var k := if a < |s| && s[a] == '【' then a + 1 else a;
      if k < |s| && s[k] == '問' then AfterBracketNumber(s, k + 1) else None
    case MondaiColon =>
      if a + 1 < |s| && s[a] == '問' && s[a + 1] == '題' then
        var b := SpaceEnd(s, a + 2);
        if b < |s| && s[b] in Colons then AfterSpaces(s, b + 1) else None
      else None
  }

  /** The text a line yields under the first marker that matches it. */
  function FirstCapture(s: string, ms: seq<Marker>): Option<string>
  {
    if ms == [] then None
    else
      match Capture(ms[0], s)
      case Some(p) => Some(s[p..])
      case None => FirstCapture(s, ms[1..])
  }

  function MatchLine(s: string): Option<string>
  {
    FirstCapture(s, Order)
  }

  // ---------------------------------------------------------------------
  // Reference: backtracking search over a chain of atoms.
  // ---------------------------------------------------------------------

  datatype Atom =
    | Spaces                    // any number of whitespace, greedy
    | DigitRun                  // one or more digits, greedy
    | OneOf(cs: set<char>)      // exactly one character from cs
    | MaybeOneOf(cs: set<char>) // an optional character from cs, greedy

  /** A marker as a chain of atoms, closed by the capture (`Rest`): at least
      one character, up to the end of the line. */
  datatype Chain = Rest | Then(head: Atom, tail: Chain)

  /** `hi, hi - 1, ..., lo`. */
  function Down(hi: nat, lo: nat): (r: seq<nat>)
    requires lo <= hi
    ensures |r| == hi - lo + 1 && r[0] == hi
    ensures forall k :: 0 <= k < |r| ==> r[k] == hi - k
    decreases hi - lo
  {
    if hi == lo then [lo] else [hi] + Down(hi - 1, lo)
  }

  /** The positions atom `a` can end at when it starts at `i`, in the order
      the engine tries them. */
  function Ends(s: string, i: nat, a: Atom): (r: seq<nat>)
    requires i <= |s|
    ensures forall k :: 0 <= k < |r| ==> i <= r[k] <= |s|
  {
    match a
    case Spaces => Down(SpaceEnd(s, i), i)
    case DigitRun => if DigitEnd(s, i) > i then Down(DigitEnd(s, i), i + 1) else []
    case OneOf(cs) => if i < |s| && s[i] in cs then [i + 1] else []
    case MaybeOneOf(cs) => if i < |s| && s[i] in cs then [i + 1, i] else [i]
  }

  /** The first way, in the engine's order, to match chain `c` from `i`;
      the result is where the capture starts. */
  function Try(s: string, i: nat, c: Chain): Option<nat>
    requires i <= |s|
    decreases c, 0, 0
  {
    match c
    case Rest => if i < |s| then Some(i) else None
    case Then(a, t) => TryEach(s, Ends(s, i, a), t)
  }

  /** Try the rest of a chain from each of `es` in turn; the first success wins. */
  function TryEach(s: string, es: seq<nat>, c: Chain): Option<nat>
    requires forall k :: 0 <= k < |es| ==> es[k] <= |s|
    decreases c, 1, |es|
  {
    if es == [] then None
    else
      match Try(s, es[0], c)
      case Some(p) => Some(p)
      case None => TryEach(s, es[1..], c)
  }

  const NumberTail: Chain :=
    Then(Spaces, Then(DigitRun, Then(Spaces, Then(MaybeOneOf(NumberPunct), Then(Spaces, Rest)))))

  function ChainOf(m: Marker): Chain {
    match m
    case ColonQ =>
      Then(Spaces, Then(OneOf(QLetters), Then(Spaces, Then(OneOf(Colons), Then(Spaces, Rest)))))
    case NumberedQ =>
      Then(Spaces, Then(OneOf(QLetters), NumberTail))
    case NumberedMon =>
      Then(Spaces, Then(OneOf({'問'}), NumberTail))
    case BracketedMon =>
      Then(Spaces, Then(MaybeOneOf({'【'}), Then(OneOf({'問'}),
        Then(DigitRun, Then(MaybeOneOf({'】'}), Then(Spaces, Rest))))))
    case MondaiColon =>
      Then(Spaces, Then(OneOf({'問'}), Then(OneOf({'題'}), Then(Spaces,
        Then(OneOf(Colons), Then(Spaces, Rest))))))
  }

  // ---------------------------------------------------------------------
  // One lemma per atom kind, then one per marker.
  // ---------------------------------------------------------------------

  /** Alternatives that fail are skipped: if every position below `hi` fails,
      the search over `hi, ..., lo` is the search from `hi`. */
  lemma {:induction false} SkipFailing(s: string, hi: nat, lo: nat, c: Chain)
    requires lo <= hi <= |s|
    requires forall e :: lo <= e < hi ==> Try(s, e, c) == None
    ensures TryEach(s, Down(hi, lo), c) == Try(s, hi, c)
  {
    var es := Down(hi, lo);
    if hi > lo {
      assert es[1..] == Down(hi - 1, lo);
      SkipFailing(s, hi - 1, lo, c);
      assert TryEach(s, es[1..], c) == None;
    } else {
      assert es[1..] == [];
    }
  }

  /** The search over `hi, ..., lo` in its first two steps. */
  lemma SearchDown(s: string, hi: nat, lo: nat, c: Chain)
    requires lo <= hi <= |s|
    ensures TryEach(s, Down(hi, lo), c) ==
      match Try(s, hi, c)
      case Some(p) => Some(p)
      case None => if hi > lo then TryEach(s, Down(hi - 1, lo), c) else None
  {
    var es := Down(hi, lo);
    if hi > lo {
      assert es[1..] == Down(hi - 1, lo);
    } else {
      assert es[1..] == [];
    }
  }

  lemma TryOneOf(s: string, i: nat, cs: set<char>, t: Chain)
    requires i <= |s|
    ensures Try(s, i, Then(OneOf(cs), t)) == if i < |s| && s[i] in cs then Try(s, i + 1, t) else None
  {
    if i < |s| && s[i] in cs {
      assert Ends(s, i, OneOf(cs)) == [i + 1];
      assert [i + 1][1..] == [];
      assert TryEach(s, [i + 1], t) == Try(s, i + 1, t);
    }
  }

  lemma TryMaybe(s: string, i: nat, cs: set<char>, t: Chain)
    requires i <= |s|
    ensures Try(s, i, Then(MaybeOneOf(cs), t)) ==
      if i < |s| && s[i] in cs then
        (match Try(s, i + 1, t) case Some(p) => Some(p) case None => Try(s, i, t))
      else Try(s, i, t)
  {
    if i < |s| && s[i] in cs {
      assert Ends(s, i, MaybeOneOf(cs)) == [i + 1, i];
      assert [i + 1, i][1..] == [i];
      assert [i][1..] == [];
      assert TryEach(s, [i], t) == Try(s, i, t);
    } else {
      assert Ends(s, i, MaybeOneOf(cs)) == [i];
      assert [i][1..] == [];
      assert TryEach(s, [i], t) == Try(s, i, t);
    }
  }

  /** Greedy spaces followed by a chain that fails on every whitespace
      position: only the longest run can lead to a match. */
  lemma TrySpacesGuarded(s: string, i: nat, t: Chain)
    requires i <= |s|
    requires forall e :: i <= e < |s| && IsSpace(s[e]) ==> Try(s, e, t) == None
    ensures Try(s, i, Then(Spaces, t)) == Try(s, SpaceEnd(s, i), t)
  {
    SkipFailing(s, SpaceEnd(s, i), i, t);
  }

  /** Greedy spaces directly before the capture. */
  lemma TrySpacesRest(s: string, i: nat)
    requires i <= |s|
    ensures Try(s, i, Then(Spaces, Rest)) == AfterSpaces(s, i)
  {
    var j := SpaceEnd(s, i);
    SearchDown(s, j, i, Rest);
    if j == |s| && j > i {
      SearchDown(s, j - 1, i, Rest);
    }
  }

  /** A digit run; when the longest run leads nowhere, the run one shorter is
      tried, which succeeds as soon as a digit always starts a capture. */
  lemma TryDigits(s: string, i: nat, t: Chain)
    requires i <= |s|
    requires forall e :: i < e < DigitEnd(s, i) ==> Try(s, e, t) == Some(e)
    ensures Try(s, i, Then(DigitRun, t)) ==
      var d := DigitEnd(s, i);
      if d == i then None
      else
        match Try(s, d, t)
        case Some(p) => Some(p)
        case None => if d - 1 > i then Some(d - 1) else None
  {
    var d := DigitEnd(s, i);
    if d > i {
      SearchDown(s, d, i + 1, t);
      if d - 1 > i {
        SearchDown(s, d - 1, i + 1, t);
      }
    }
  }

  lemma TryWhitespaceRejected(s: string, e: nat, cs: set<char>, t: Chain)
    requires e < |s| && IsSpace(s[e]) && s[e] !in cs
    ensures Try(s, e, Then(OneOf(cs), t)) == None
  {
    TryOneOf(s, e, cs, t);
  }

  const DigitsTail: Chain := Then(Spaces, Then(MaybeOneOf(NumberPunct), Then(Spaces, Rest)))

  lemma TryNumberDigits(s: string, d: nat)
    requires d <= |s|
    ensures Try(s, d, Then(Spaces, Then(MaybeOneOf(NumberPunct), Then(Spaces, Rest)))) == AfterNumberDigits(s, d)
  {
    var x := SpaceEnd(s, d);
    SearchDown(s, x, d, Then(MaybeOneOf(NumberPunct), Then(Spaces, Rest)));
    TryMaybeSpacesRest(s, x);
    if x == |s| && x > d {
      GiveBackSpace(s, d);
    }
  }

  /** When only spaces follow the digits, the last space becomes the capture. */
  lemma GiveBackSpace(s: string, d: nat)
    requires d < |s| && SpaceEnd(s, d) == |s|
    ensures TryEach(s, Down(|s| - 1, d), Then(MaybeOneOf(NumberPunct), Then(Spaces, Rest))) == Some(|s| - 1)
  {
    assert IsSpace(s[|s| - 1]);
    assert s[|s| - 1] !in NumberPunct;
    assert AfterSpaces(s, |s| - 1) == Some(|s| - 1);
    SearchDown(s, |s| - 1, d, Then(MaybeOneOf(NumberPunct), Then(Spaces, Rest)));
    TryMaybeSpacesRest(s, |s| - 1);
  }

  /** Optional number punctuation, then greedy spaces before the capture. */
  lemma TryMaybeSpacesRest(s: string, x: nat)
    requires x <= |s|
    ensures Try(s, x, Then(MaybeOneOf(NumberPunct), Then(Spaces, Rest))) ==
      if x < |s| && s[x] in NumberPunct then
        (match AfterSpaces(s, x + 1) case Some(p) => Some(p) case None => AfterSpaces(s, x))
      else AfterSpaces(s, x)
  {
    TryMaybe(s, x, NumberPunct, Then(Spaces, Rest));
    TrySpacesRest(s, x);
    if x < |s| {
      TrySpacesRest(s, x + 1);
    }
  }

  /** Greedy spaces or a digit run cannot start on a whitespace character. */
  lemma DigitsRejectSpace(s: string, e: nat, t: Chain)
    requires e < |s| && IsSpace(s[e])
    ensures Try(s, e, Then(DigitRun, t)) == None
  {
    assert DigitEnd(s, e) == e;
  }

  /** A digit that ends a shortened digit run starts the capture. */
  lemma DigitStartsCapture(s: string, e: nat)
    requires e < |s| && IsDigit(s[e])
    ensures Try(s, e, DigitsTail) == Some(e)
  {
    TryNumberDigits(s, e);
    assert SpaceEnd(s, e) == e;
  }

  lemma TryNumber(s: string, i: nat)
    requires i <= |s|
    ensures Try(s, i, NumberTail) == AfterNumber(s, i)
  {
    var b := SpaceEnd(s, i);
    forall e | i <= e < |s| && IsSpace(s[e])
      ensures Try(s, e, Then(DigitRun, DigitsTail)) == None
    {
      DigitsRejectSpace(s, e, DigitsTail);
    }
    TrySpacesGuarded(s, i, Then(DigitRun, DigitsTail));
    TryDigitsTail(s, b);
  }

  lemma TryDigitsTail(s: string, b: nat)
    requires b <= |s|
    ensures Try(s, b, Then(DigitRun, DigitsTail)) ==
      var d := DigitEnd(s, b);
      if d == b then None
      else
        match AfterNumberDigits(s, d)
        case Some(p) => Some(p)
        case None => if d - 1 > b then Some(d - 1) else None
  {
    forall e | b < e < DigitEnd(s, b)
      ensures Try(s, e, DigitsTail) == Some(e)
    {
      DigitStartsCapture(s, e);
    }
    TryDigits(s, b, DigitsTail);
    TryNumberDigits(s, DigitEnd(s, b));
  }

  const BracketTail: Chain := Then(MaybeOneOf({'】'}), Then(Spaces, Rest))

  lemma TryBracketDigits(s: string, d: nat)
    requires d <= |s|
    ensures Try(s, d, BracketTail) == AfterBracketDigits(s, d)
  {
    TryMaybe(s, d, {'】'}, Then(Spaces, Rest));
    TrySpacesRest(s, d);
    if d < |s| {
      TrySpacesRest(s, d + 1);
    }
  }

  lemma TryBracketNumber(s: string, i: nat)
    requires i <= |s|
    ensures Try(s, i, Then(DigitRun, BracketTail)) == AfterBracketNumber(s, i)
  {
    forall e | i < e < DigitEnd(s, i)
      ensures Try(s, e, BracketTail) == Some(e)
    {
      TryBracketDigits(s, e);
    }
    TryDigits(s, i, BracketTail);
    TryBracketDigits(s, DigitEnd(s, i));
  }

  /** Leading spaces before a marker letter, which is never whitespace. */
  lemma LeadingSpaces(s: string, cs: set<char>, t: Chain)
    requires forall c :: c in cs ==> !IsSpace(c)
    ensures Try(s, 0, Then(Spaces, Then(OneOf(cs), t))) ==
      var a := SpaceEnd(s, 0);
      if a < |s| && s[a] in cs then Try(s, a + 1, t) else None
  {
    forall e | 0 <= e < |s| && IsSpace(s[e]) ensures Try(s, e, Then(OneOf(cs), t)) == None {
      TryWhitespaceRejected(s, e, cs, t);
    }
    TrySpacesGuarded(s, 0, Then(OneOf(cs), t));
    TryOneOf(s, SpaceEnd(s, 0), cs, t);
  }

  /** Spaces, a colon, spaces and the capture, from `i`. */
  lemma ColonTail(s: string, i: nat)
    requires i <= |s|
    ensures Try(s, i, Then(Spaces, Then(OneOf(Colons), Then(Spaces, Rest)))) ==
      var b := SpaceEnd(s, i);
      if b < |s| && s[b] in Colons then AfterSpaces(s, b + 1) else None
  {
    var u := Then(Spaces, Rest);
    forall e | i <= e < |s| && IsSpace(s[e]) ensures Try(s, e, Then(OneOf(Colons), u)) == None {
      TryWhitespaceRejected(s, e, Colons, u);
    }
    TrySpacesGuarded(s, i, Then(OneOf(Colons), u));
    var b := SpaceEnd(s, i);
    TryOneOf(s, b, Colons, u);
    if b < |s| && s[b] in Colons {
      TrySpacesRest(s, b + 1);
    }
  }

  lemma ColonQIsBacktracking(s: string)
    ensures Capture(ColonQ, s) == Try(s, 0, ChainOf(ColonQ))
  {
    LeadingSpaces(s, QLetters, Then(Spaces, Then(OneOf(Colons), Then(Spaces, Rest))));
    var a := SpaceEnd(s, 0);
    if a < |s| && s[a] in QLetters {
      ColonTail(s, a + 1);
    }
  }

  lemma NumberedQIsBacktracking(s: string)
    ensures Capture(NumberedQ, s) == Try(s, 0, ChainOf(NumberedQ))
  {
    LeadingSpaces(s, QLetters, NumberTail);
    var a := SpaceEnd(s, 0);
    if a < |s| && s[a] in QLetters {
      TryNumber(s, a + 1);
    }
  }

  lemma NumberedMonIsBacktracking(s: string)
    ensures Capture(NumberedMon, s) == Try(s, 0, ChainOf(NumberedMon))
  {
    LeadingSpaces(s, {'問'}, NumberTail);
    var a := SpaceEnd(s, 0);
    if a < |s| && s[a] == '問' {
      TryNumber(s, a + 1);
    }
  }

  lemma BracketedMonIsBacktracking(s: string)
    ensures Capture(BracketedMon, s) == Try(s, 0, ChainOf(BracketedMon))
  {
    var u := Then(DigitRun, BracketTail);
    var t := Then(OneOf({'問'}), u);
    forall e | 0 <= e < |s| && IsSpace(s[e]) ensures Try(s, e, Then(MaybeOneOf({'【'}), t)) == None {
      TryMaybe(s, e, {'【'}, t);
      TryWhitespaceRejected(s, e, {'問'}, u);
    }
    TrySpacesGuarded(s, 0, Then(MaybeOneOf({'【'}), t));
    var a := SpaceEnd(s, 0);
    TryMaybe(s, a, {'【'}, t);
    TryOneOf(s, a, {'問'}, u);
    if a < |s| && s[a] == '【' {
      TryOneOf(s, a + 1, {'問'}, u);
      if a + 1 < |s| && s[a + 1] == '問' {
        TryBracketNumber(s, a + 2);
      }
    } else if a < |s| && s[a] == '問' {
      TryBracketNumber(s, a + 1);
    }
  }

  /** The `題`, colon, spaces and capture that follow `問` in `問題：`. */
  lemma MondaiTail(s: string, i: nat)
    requires i <= |s|
    ensures Try(s, i, Then(OneOf({'題'}), Then(Spaces, Then(OneOf(Colons), Then(Spaces, Rest))))) ==
      if i < |s| && s[i] == '題' then
        var b := SpaceEnd(s, i + 1);
        if b < |s| && s[b] in Colons then AfterSpaces(s, b + 1) else None
      else None
  {
    var v := Then(Spaces, Then(OneOf(Colons), Then(Spaces, Rest)));
    TryOneOf(s, i, {'題'}, v);
    if i < |s| && s[i] == '題' {
      ColonTail(s, i + 1);
    }
  }

  lemma MondaiColonIsBacktracking(s: string)
    ensures Capture(MondaiColon, s) == Try(s, 0, ChainOf(MondaiColon))
  {
    var v := Then(Spaces, Then(OneOf(Colons), Then(Spaces, Rest)));
    LeadingSpaces(s, {'問'}, Then(OneOf({'題'}), v));
    var a := SpaceEnd(s, 0);
    if a < |s| && s[a] == '問' {
      MondaiTail(s, a + 1);
    }
  }

  /** Every hand-written matcher agrees with the backtracking reference. */
  lemma CaptureIsBacktracking(m: Marker, s: string)
    ensures Capture(m, s) == Try(s, 0, ChainOf(m))
  {
    match m
    case ColonQ => ColonQIsBacktracking(s);
    case NumberedQ => NumberedQIsBacktracking(s);
    case NumberedMon => NumberedMonIsBacktracking(s);
    case BracketedMon => BracketedMonIsBacktracking(s);
    case MondaiColon => MondaiColonIsBacktracking(s);
  }

  // ---------------------------------------------------------------------
  // What a line yields.
  // ---------------------------------------------------------------------

  /** The line as the marker `m` would capture it, or `otherwise` when `m`
      does not match. */
  function Prefer(s: string, m: Marker, otherwise: Option<string>): Option<string> {
    match Capture(m, s)
    case Some(p) => Some(s[p..])
    case None => otherwise
  }

  /** The markers are tried in their fixed order and the first one that
      matches decides the capture, even when a later marker would capture
      something else. */
  lemma MatchLineOrder(s: string)
    ensures MatchLine(s) ==
      Prefer(s, ColonQ, Prefer(s, NumberedQ, Prefer(s, NumberedMon, Prefer(s, BracketedMon, Prefer(s, MondaiColon, None)))))
  {
    var t1 := [MondaiColon];
    var t2 := [BracketedMon] + t1;
    var t3 := [NumberedMon] + t2;
    var t4 := [NumberedQ] + t3;
    assert t1[1..] == [] && t2[1..] == t1 && t3[1..] == t2 && t4[1..] == t3 && Order[1..] == t4;
    assert FirstCapture(s, t1) == Prefer(s, MondaiColon, None);
    assert FirstCapture(s, t2) == Prefer(s, BracketedMon, FirstCapture(s, t1));
    assert FirstCapture(s, t3) == Prefer(s, NumberedMon, FirstCapture(s, t2));
    assert FirstCapture(s, t4) == Prefer(s, NumberedQ, FirstCapture(s, t3));
  }

  /** A capture always runs to the end of the line and is never empty. */
  lemma MatchLineIsSuffix(s: string)
    requires MatchLine(s).Some?
    ensures var c := MatchLine(s).value; 0 < |c| <= |s| && c == s[|s| - |c|..]
  {
    MatchLineOrder(s);
  }

  /** The first character after leading whitespace can open a marker. */
  predicate OpensMarker(s: string) {
    var a := SpaceEnd(s, 0);
    a < |s| && s[a] in {'Q', 'Ｑ', '【', '問'}
  }

  /** A line whose first non-space character is not `Q`, `Ｑ`, `【` or `問`
      yields nothing. */
  lemma NoMarkerNoMatch(s: string)
    requires !OpensMarker(s)
    ensures MatchLine(s) == None
  {
    MatchLineOrder(s);
  }

  lemma SpaceEndAt(s: string, i: nat, j: nat)
    requires i <= j <= |s|
    requires forall k :: i <= k < j ==> IsSpace(s[k])
    requires j == |s| || !IsSpace(s[j])
    ensures SpaceEnd(s, i) == j
  {
  }

  lemma DigitEndAt(s: string, i: nat, j: nat)
    requires i <= j <= |s|
    requires forall k :: i <= k < j ==> IsDigit(s[k])
    requires j == |s| || !IsDigit(s[j])
    ensures DigitEnd(s, i) == j
  {
  }

  predicate AllSpaces(gap: string) {
    forall k :: 0 <= k < |gap| ==> IsSpace(gap[k])
  }

  predicate AllDigits(n: string) {
    n != [] && forall k :: 0 <= k < |n| ==> IsDigit(n[k])
  }

  /** `Q: text`, `Ｑ：text` and the like yield the text. */
  lemma ColonQForm(q: char, c: char, gap: string, t: string)
    requires q in QLetters && c in Colons && AllSpaces(gap)
    requires t != [] && !IsSpace(t[0])
    ensures MatchLine([q, c] + gap + t) == Some(t)
  {
    var s := [q, c] + gap + t;
    var e := 2 + |gap|;
    assert s[0] == q && s[1] == c && s[e] == t[0];
    assert forall k :: 2 <= k < e ==> s[k] == gap[k - 2];
    SpaceEndAt(s, 0, 0);
    SpaceEndAt(s, 1, 1);
    SpaceEndAt(s, 2, e);
    assert s[e..] == t;
    assert Capture(ColonQ, s) == Some(e);
    MatchLineOrder(s);
  }

  /** The number part of `Q1 text` and `問2 text`: a number, optional spaces,
      then text that does not start with a digit, a space or number
      punctuation. */
  lemma NumberPart(s: string, n: string, gap: string, t: string)
    requires AllDigits(n) && AllSpaces(gap)
    requires t != [] && !IsSpace(t[0]) && !IsDigit(t[0]) && t[0] !in NumberPunct
    requires |s| > 0 && s[1..] == n + gap + t
    ensures AfterNumber(s, 1) == Some(1 + |n| + |gap|)
  {
    var d := 1 + |n|;
    var e := d + |gap|;
    assert forall k :: 1 <= k < d ==> s[k] == n[k - 1];
    assert forall k :: d <= k < e ==> s[k] == gap[k - d];
    assert s[e] == t[0];
    DigitEndAt(s, 1, d);
    SpaceEndAt(s, 1, 1);
    SpaceEndAt(s, d, e);
  }

  /** The number part of `Q1: text` and `問3. text`. */
  lemma NumberPunctPart(s: string, n: string, p: char, gap: string, t: string)
    requires AllDigits(n) && p in NumberPunct && AllSpaces(gap)
    requires t != [] && !IsSpace(t[0])
    requires |s| > 0 && s[1..] == n + [p] + gap + t
    ensures AfterNumber(s, 1) == Some(2 + |n| + |gap|)
  {
    var d := 1 + |n|;
    var e := d + 1 + |gap|;
    assert forall k :: 1 <= k < d ==> s[k] == n[k - 1];
    assert forall k :: d + 1 <= k < e ==> s[k] == gap[k - d - 1];
    assert s[d] == p && s[e] == t[0];
    DigitEndAt(s, 1, d);
    SpaceEndAt(s, 1, 1);
    SpaceEndAt(s, d, d);
    SpaceEndAt(s, d + 1, e);
  }

  /** What the first two markers make of a line that opens with a `Q` and a
      digit. */
  lemma QDigitIsNotColonQ(s: string)
    requires |s| > 1 && s[0] in QLetters && IsDigit(s[1])
    ensures Capture(ColonQ, s) == None
  {
    SpaceEndAt(s, 0, 0);
    SpaceEndAt(s, 1, 1);
  }

  /** A line opening with `問` is passed over by the two `Q` markers. */
  lemma MonIsNotQ(s: string)
    requires |s| > 0 && s[0] == '問'
    ensures Capture(ColonQ, s) == None && Capture(NumberedQ, s) == None
  {
    SpaceEndAt(s, 0, 0);
  }

  /** `Q1 text`, `問2 text`. */
  lemma NumberedForm(head: char, n: string, gap: string, t: string)
    requires head in QLetters || head == '問'
    requires AllDigits(n) && AllSpaces(gap)
    requires t != [] && !IsSpace(t[0]) && !IsDigit(t[0]) && t[0] !in NumberPunct
    ensures MatchLine([head] + n + gap + t) == Some(t)
  {
    var e := NumberedLayout(head, n, gap, t);
    NumberedAt([head] + n + gap + t, e);
  }

  /** Where the capture of `[head] + n + gap + t` starts. */
  lemma NumberedLayout(head: char, n: string, gap: string, t: string) returns (e: nat)
    requires AllDigits(n) && AllSpaces(gap)
    requires t != [] && !IsSpace(t[0]) && !IsDigit(t[0]) && t[0] !in NumberPunct
    ensures var s := [head] + n + gap + t;
      |s| > 1 && s[0] == head && IsDigit(s[1]) && AfterNumber(s, 1) == Some(e) && e <= |s| && s[e..] == t
  {
    var s := [head] + n + gap + t;
    e := |[head] + n + gap|;
    assert s[e..] == t && s[0] == head && s[1..] == n + gap + t by {
      Shape([head], [head] + n + gap, t);
    }
    assert s[1] == s[1..][0] == n[0];
    NumberPart(s, n, gap, t);
  }

  lemma NumberedPunctForm(head: char, n: string, p: char, gap: string, t: string)
    requires head in QLetters || head == '問'
    requires AllDigits(n) && p in NumberPunct && AllSpaces(gap)
    requires t != [] && !IsSpace(t[0])
    ensures MatchLine([head] + n + [p] + gap + t) == Some(t)
  {
    var e := NumberedPunctLayout(head, n, p, gap, t);
    NumberedAt([head] + n + [p] + gap + t, e);
  }

  /** Where the capture of `[head] + n + [p] + gap + t` starts. */
  lemma NumberedPunctLayout(head: char, n: string, p: char, gap: string, t: string) returns (e: nat)
    requires AllDigits(n) && p in NumberPunct && AllSpaces(gap)
    requires t != [] && !IsSpace(t[0])
    ensures var s := [head] + n + [p] + gap + t;
      |s| > 1 && s[0] == head && IsDigit(s[1]) && AfterNumber(s, 1) == Some(e) && e <= |s| && s[e..] == t
  {
    var s := [head] + n + [p] + gap + t;
    e := |[head] + n + [p] + gap|;
    assert s[e..] == t && s[0] == head && s[1..] == n + [p] + gap + t by {
      Shape([head], [head] + n + [p] + gap, t);
    }
    assert s[1] == s[1..][0] == n[0];
    NumberPunctPart(s, n, p, gap, t);
  }

  /** The parts of a line `pre + t` that opens with `[head]`. */
  lemma Shape(h: string, pre: string, t: string)
    requires |h| == 1 && |pre| >= 1 && pre[..1] == h
    ensures var s := pre + t; s[|pre|..] == t && s[0] == h[0] && s[1..] == pre[1..] + t
  {
    var s := pre + t;
    assert s[0] == pre[0];
  }

  /** A line opening with a question letter or '問' and a number is matched
      by the numbered forms, which capture from the end of the number. */
  lemma NumberedAt(s: string, e: nat)
    requires |s| > 1 && (s[0] in QLetters || s[0] == '問') && IsDigit(s[1])
    requires AfterNumber(s, 1) == Some(e) && e <= |s|
    ensures MatchLine(s) == Some(s[e..])
  {
    SpaceEndAt(s, 0, 0);
    if s[0] in QLetters {
      QDigitIsNotColonQ(s);
      MatchLineOrder(s);
    } else {
      MonIsNotQ(s);
      MatchLineOrder(s);
    }
  }

  lemma BracketCaptureAt(s: string, d: nat, e: nat)
    requires 2 < d < e < |s|
    requires s[0] == '【' && s[1] == '問' && s[d] == '】' && !IsSpace(s[e])
    requires forall k :: 2 <= k < d ==> IsDigit(s[k])
    requires forall k :: d + 1 <= k < e ==> IsSpace(s[k])
    ensures Capture(BracketedMon, s) == Some(e)
    ensures Capture(ColonQ, s) == None && Capture(NumberedQ, s) == None && Capture(NumberedMon, s) == None
  {
    SpaceEndAt(s, 0, 0);
    DigitEndAt(s, 2, d);
    SpaceEndAt(s, d + 1, e);
  }

  /** `【問3】text`. */
  lemma BracketedForm(n: string, gap: string, t: string)
    requires AllDigits(n) && AllSpaces(gap)
    requires t != [] && !IsSpace(t[0])
    ensures MatchLine(['【', '問'] + n + ['】'] + gap + t) == Some(t)
  {
    var s := ['【', '問'] + n + ['】'] + gap + t;
    var d := 2 + |n|;
    var e := d + 1 + |gap|;
    assert s[0] == '【' && s[1] == '問' && s[d] == '】' && s[e] == t[0];
    assert forall k :: 2 <= k < d ==> s[k] == n[k - 2];
    assert forall k :: d + 1 <= k < e ==> s[k] == gap[k - d - 1];
    assert s[e..] == t;
    BracketCaptureAt(s, d, e);
    MatchLineOrder(s);
  }

  /** `問題：text`. */
  lemma MondaiForm(c: char, gap: string, t: string)
    requires c in Colons && AllSpaces(gap)
    requires t != [] && !IsSpace(t[0])
    ensures MatchLine(['問', '題', c] + gap + t) == Some(t)
  {
    var s := ['問', '題', c] + gap + t;
    var e := 3 + |gap|;
    assert s[0] == '問' && s[1] == '題' && s[2] == c && s[e] == t[0];
    assert forall k :: 3 <= k < e ==> s[k] == gap[k - 3];
    SpaceEndAt(s, 0, 0);
    SpaceEndAt(s, 1, 1);
    DigitEndAt(s, 1, 1);
    SpaceEndAt(s, 2, 2);
    SpaceEndAt(s, 3, e);
    assert s[e..] == t;
    MonIsNotQ(s);
    assert Capture(NumberedMon, s) == None;
    assert Capture(BracketedMon, s) == None;
    assert Capture(MondaiColon, s) == Some(e);
    MatchLineOrder(s);
  }

  /** The forms listed in the extractor's documentation. */
  lemma DocumentedColonForm()
    ensures MatchLine("Q: xxx") == Some("xxx")
  {
    assert "Q: xxx" == ['Q', ':'] + " " + "xxx";
    ColonQForm('Q', ':', " ", "xxx");
  }

  lemma DocumentedMondaiForm()
    ensures MatchLine("問題：xxx") == Some("xxx")
  {
    assert "問題：xxx" == ['問', '題', '：'] + "" + "xxx";
    MondaiForm('：', "", "xxx");
  }

  lemma DocumentedNumberPunctForm()
    ensures MatchLine("Q1: xxx") == Some("xxx")
  {
    assert "Q1: xxx" == ['Q'] + "1" + [':'] + " " + "xxx";
    NumberedPunctForm('Q', "1", ':', " ", "xxx");
  }

  lemma DocumentedFullWidthForm()
    ensures MatchLine("Ｑ２：xxx") == Some("xxx")
  {
    assert "Ｑ２：xxx" == ['Ｑ'] + "２" + ['：'] + "" + "xxx";
    NumberedPunctForm('Ｑ', "２", '：', "", "xxx");
  }

  lemma DocumentedNumberedForm()
    ensures MatchLine("問1 xxx") == Some("xxx")
  {
    assert "問1 xxx" == ['問'] + "1" + " " + "xxx";
    NumberedForm('問', "1", " ", "xxx");
  }

  lemma DocumentedBracketedForm()
    ensures MatchLine("【問3】xxx") == Some("xxx")
  {
    assert "【問3】xxx" == ['【', '問'] + "3" + ['】'] + "" + "xxx";
    BracketedForm("3", "", "xxx");
  }

  /** A number with nothing after it: the digit run gives its last digit
      back to the capture. */
  lemma TrailingNumber()
    ensures MatchLine("Q12") == Some("2")
  {
    var s := "Q12";
    SpaceEndAt(s, 0, 0);
    SpaceEndAt(s, 1, 1);
    DigitEndAt(s, 1, 3);
    SpaceEndAt(s, 3, 3);
    assert Capture(ColonQ, s) == None;
    assert Capture(NumberedQ, s) == Some(2);
    MatchLineOrder(s);
  }

  /** The order matters: the numbered `問` marker captures "x" from
      "問1) x", where the bracketed marker alone would capture ") x". */
  lemma NumberedBeforeBracketed()
    ensures MatchLine("問1) x") == Some("x")
  {
    var s := "問1) x";
    SpaceEndAt(s, 0, 0);
    SpaceEndAt(s, 1, 1);
    DigitEndAt(s, 1, 2);
    SpaceEndAt(s, 2, 2);
    SpaceEndAt(s, 3, 4);
    MonIsNotQ(s);
    assert Capture(NumberedMon, s) == Some(4);
    MatchLineOrder(s);
  }

  lemma BracketedAloneKeepsPunct()
    ensures Capture(BracketedMon, "問1) x") == Some(2)
  {
    var s := "問1) x";
    SpaceEndAt(s, 0, 0);
    DigitEndAt(s, 1, 2);
    SpaceEndAt(s, 2, 2);
  }
}
