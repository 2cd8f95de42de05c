/** Matching a market reference by id or by normalised question. */
module QuestionMatching {
  import opened Text

  // str.split(): the maximal blocks without blanks.
  function Split(s: string): seq<string>
    decreases |s|
  {
    var t := LStrip(s);
    LStripShrinks(s);
    if t == "" then []
    else
      var n := WordLength(t);
      [t[..n]] + Split(t[n..])
  }

  function WordLength(s: string): (n: nat)
    ensures n <= |s|
    ensures s != "" && !IsSpace(s[0]) ==> n > 0
    ensures forall i :: 0 <= i < n ==> !IsSpace(s[i])
    ensures n < |s| ==> IsSpace(s[n])
  {
    if s == "" || IsSpace(s[0]) then 0 else 1 + WordLength(s[1..])
  }

  lemma {:induction false} LStripShrinks(s: string)
    ensures |LStrip(s)| <= |s| && (LStrip(s) != "" ==> !IsSpace(LStrip(s)[0]))
  {
    if s != "" && IsSpace(s[0]) {
      LStripShrinks(s[1..]);
    }
  }

  // " ".join(words)
  function Join(words: seq<string>): string {
    if words == [] then ""
    else if |words| == 1 then words[0]
    else words[0] + " " + Join(words[1..])
  }

  function Normalize(question: string): string {
    Join(Split(Strip(Lower(question))))
  }

  predicate IsWord(w: string) {
    w != "" && forall i :: 0 <= i < |w| ==> !IsSpace(w[i])
  }

  predicate AllWords(ws: seq<string>) {
    forall i :: 0 <= i < |ws| ==> IsWord(ws[i])
  }

  lemma {:induction false} SplitWords(s: string)
    ensures AllWords(Split(s))
    decreases |s|
  {
    LStripShrinks(s);
    var t := LStrip(s);
    if t != "" {
      SplitWords(t[WordLength(t)..]);
    }
  }

  // The first word of w + rest is w, when rest is empty or starts with a blank.
  lemma {:induction false} WordLengthIs(w: string, rest: string)
    requires forall i :: 0 <= i < |w| ==> !IsSpace(w[i])
    requires rest != "" ==> IsSpace(rest[0])
    ensures WordLength(w + rest) == |w|
  {
    if w == "" {
      assert w + rest == rest;
    } else {
      assert (w + rest)[1..] == w[1..] + rest;
      WordLengthIs(w[1..], rest);
    }
  }

  lemma {:induction false} SplitJoin(ws: seq<string>)
    requires AllWords(ws)
    ensures Split(Join(ws)) == ws
    ensures Split(" " + Join(ws)) == ws
  {
    assert LStrip(" " + Join(ws)) == LStrip(Join(ws)) by {
      assert (" " + Join(ws))[1..] == Join(ws);
    }
    if ws != [] {
      var rest := if |ws| == 1 then "" else " " + Join(ws[1..]);
      assert IsWord(ws[0]);
      assert Join(ws) == ws[0] + rest;
      WordLengthIs(ws[0], rest);
      assert LStrip(Join(ws)) == Join(ws);
      assert Join(ws)[..|ws[0]|] == ws[0] && Join(ws)[|ws[0]|..] == rest;
      if |ws| > 1 {
        SplitJoin(ws[1..]);
      } else {
        assert Split("") == [];
        assert ws == [ws[0]];
      }
    }
  }

  predicate LowerCase(s: string) {
    forall i :: 0 <= i < |s| ==> LowerChar(s[i]) == s[i]
  }

  lemma LowerOfLowerCase(s: string)
    requires LowerCase(s)
    ensures Lower(s) == s
  {
  }

  lemma LowerSlice(s: string, i: nat, j: nat)
    requires LowerCase(s) && i <= j <= |s|
    ensures LowerCase(s[i..j])
  {
  }

  lemma {:induction false} LowerWords(s: string)
    requires LowerCase(s)
    ensures forall i :: 0 <= i < |Split(s)| ==> LowerCase(Split(s)[i])
    decreases |s|
  {
    LStripShrinks(s);
    LStripSuffix(s);
    var t := LStrip(s);
    if t != "" {
      var n := WordLength(t);
      LowerSlice(s, |s| - |t|, |s|);
      assert t == s[|s| - |t|..|s|];
      LowerSlice(t, 0, n);
      LowerSlice(t, n, |t|);
      assert t[n..] == t[n..|t|] && t[..n] == t[0..n];
      LowerWords(t[n..]);
    }
  }

  lemma {:induction false} LStripSuffix(s: string)
    ensures |LStrip(s)| <= |s| && LStrip(s) == s[|s| - |LStrip(s)|..]
  {
    if s != "" && IsSpace(s[0]) {
      LStripSuffix(s[1..]);
    }
  }

  lemma {:induction false} LowerJoin(ws: seq<string>)
    requires forall i :: 0 <= i < |ws| ==> LowerCase(ws[i])
    ensures LowerCase(Join(ws))
  {
    if |ws| > 1 {
      LowerJoin(ws[1..]);
      assert LowerCase(ws[0]) && LowerCase(" ") && LowerCase(Join(ws[1..]));
    }
  }

  lemma {:induction false} JoinEnds(ws: seq<string>)
    requires AllWords(ws) && ws != []
    ensures Join(ws) != "" && !IsSpace(Join(ws)[0]) && !IsSpace(Join(ws)[|Join(ws)| - 1])
  {
    assert IsWord(ws[0]);
    if |ws| > 1 {
      JoinEnds(ws[1..]);
    }
  }

  lemma StripOfJoin(ws: seq<string>)
    requires AllWords(ws)
    ensures Strip(Join(ws)) == Join(ws)
  {
    if ws == [] {
    } else {
      JoinEnds(ws);
      StripPad("", Join(ws), "");
      assert "" + Join(ws) + "" == Join(ws);
    }
  }

  // Case folding comes first, so the words of a question are already lower case.
  lemma NormalForm(question: string) returns (ws: seq<string>)
    ensures AllWords(ws) && Normalize(question) == Join(ws)
    ensures Lower(Join(ws)) == Join(ws) && Strip(Join(ws)) == Join(ws) && Split(Join(ws)) == ws
  {
    var low := Lower(question);
    var s := Strip(low);
    ws := Split(s);
    SplitWords(s);
    SplitJoin(ws);
    StripOfJoin(ws);
    var lead, trail := StripSplits(low);
    assert LowerCase(low);
    assert s == low[|lead|..|lead| + |s|];
    LowerSlice(low, |lead|, |lead| + |s|);
    LowerWords(s);
    LowerJoin(ws);
    LowerOfLowerCase(Join(ws));
  }

  /** Normalising is idempotent, and on its output joining and splitting undo each other. */
  lemma NormalizeIdempotent(question: string)
    ensures Normalize(Normalize(question)) == Normalize(question)
    ensures Join(Split(Normalize(question))) == Normalize(question)
  {
    var ws := NormalForm(question);
  }

  // ---------- what a normal form is made of ----------

  lemma {:induction false} LStripBlank(lead: string, s: string)
    requires Blank(lead)
    ensures LStrip(lead + s) == LStrip(s)
  {
    if lead == "" {
      assert lead + s == s;
    } else {
      assert (lead + s)[1..] == lead[1..] + s;
      LStripBlank(lead[1..], s);
    }
  }

  lemma {:induction false} LStripBefore(s: string, trail: string)
    requires LStrip(s) != ""
    ensures LStrip(s + trail) == LStrip(s) + trail
  {
    if IsSpace(s[0]) {
      assert (s + trail)[1..] == s[1..] + trail;
      LStripBefore(s[1..], trail);
    }
  }

  lemma {:induction false} BlankWhenStripped(s: string)
    requires LStrip(s) == ""
    ensures Blank(s)
  {
    if s != "" {
      BlankWhenStripped(s[1..]);
    }
  }

  // Blanks behind the text make no word.
  lemma {:induction false} SplitTrail(s: string, trail: string)
    requires Blank(trail)
    ensures Split(s + trail) == Split(s)
    decreases |s|
  {
    hide IsSpace;
    var t := LStrip(s);
    LStripShrinks(s);
    if t == "" {
      BlankWhenStripped(s);
      LStripBlank(s, trail);
      LStripBlank(trail, "");
      assert trail + "" == trail;
    } else {
      LStripBefore(s, trail);
      var n := WordLength(t);
      assert t == t[..n] + t[n..];
      assert t + trail == t[..n] + (t[n..] + trail);
      WordLengthIs(t[..n], t[n..] + trail);
      assert (t + trail)[..n] == t[..n] && (t + trail)[n..] == t[n..] + trail;
      SplitTrail(t[n..], trail);
    }
  }

  lemma SplitPadded(lead: string, s: string, trail: string)
    requires Blank(lead) && Blank(trail)
    ensures Split(lead + s + trail) == Split(s)
  {
    SplitTrail(lead + s, trail);
    LStripBlank(lead, s);
  }

  function LowerAll(ws: seq<string>): seq<string> {
    seq(|ws|, i requires 0 <= i < |ws| => Lower(ws[i]))
  }

  lemma {:induction false} LStripLower(s: string)
    ensures LStrip(Lower(s)) == Lower(LStrip(s))
  {
    if s != "" && IsSpace(s[0]) {
      assert Lower(s)[1..] == Lower(s[1..]);
      LStripLower(s[1..]);
    }
  }

  lemma {:induction false} WordLengthLower(s: string)
    ensures WordLength(Lower(s)) == WordLength(s)
  {
    if s != "" && !IsSpace(s[0]) {
      assert Lower(s)[1..] == Lower(s[1..]);
      WordLengthLower(s[1..]);
    }
  }

  lemma {:induction false} SplitLower(s: string)
    ensures Split(Lower(s)) == LowerAll(Split(s))
    decreases |s|
  {
    hide IsSpace;
    var t := LStrip(s);
    LStripShrinks(s);
    LStripLower(s);
    if t != "" {
      var n := WordLength(t);
      WordLengthLower(t);
      assert |Lower(t)| == |t|;
      assert Lower(t)[..n] == Lower(t[..n]) && Lower(t)[n..] == Lower(t[n..]);
      SplitLower(t[n..]);
      assert LowerAll(Split(s)) == [Lower(t[..n])] + LowerAll(Split(t[n..]));
    }
  }

  /** The normal form of a question is its words in lower case, joined by single blanks. */
  lemma NormalizeIs(question: string)
    ensures Normalize(question) == Join(LowerAll(Split(question)))
  {
    hide Split, Strip, Lower;
    var low := Lower(question);
    var lead, trail := StripSplits(low);
    SplitPadded(lead, Strip(low), trail);
    SplitLower(question);
  }

  // The same words in the same order, whatever the case of letters.
  predicate SameWords(a: seq<string>, b: seq<string>) {
    |a| == |b| && forall i :: 0 <= i < |a| ==> SameText(a[i], b[i])
  }

  lemma LowerAllIff(a: seq<string>, b: seq<string>)
    ensures LowerAll(a) == LowerAll(b) <==> SameWords(a, b)
  {
    hide Lower, SameText;
    if |a| == |b| {
      forall i | 0 <= i < |a|
        ensures LowerAll(a)[i] == LowerAll(b)[i] <==> SameText(a[i], b[i])
      {
        CaseForms(a[i], b[i]);
      }
    }
    assert |LowerAll(a)| == |a| && |LowerAll(b)| == |b|;
  }

  /** Two questions have the same normal form if and only if they are made of the same words in the same
      order, whatever the case of letters and the blanks between and around them. */
  lemma SameQuestionIff(q1: string, q2: string)
    ensures Normalize(q1) == Normalize(q2) <==> SameWords(Split(q1), Split(q2))
  {
    hide Split, Normalize, Join;
    NormalizeIs(q1);
    NormalizeIs(q2);
    LowerAllIff(Split(q1), Split(q2));
    LowerAllWords(q1);
    LowerAllWords(q2);
    SplitJoin(LowerAll(Split(q1)));
    SplitJoin(LowerAll(Split(q2)));
  }

  lemma LowerAllWords(q: string)
    ensures AllWords(LowerAll(Split(q)))
  {
    SplitLower(q);
    SplitWords(Lower(q));
  }

  // Words with blanks around and between them: gaps[i] stands in front of word i.
  function Spaced(ws: seq<string>, gaps: seq<string>): string
    requires |gaps| == |ws| + 1
  {
    if ws == [] then gaps[0] else gaps[0] + (ws[0] + Spaced(ws[1..], gaps[1..]))
  }

  // All gaps are blank, and there is one between any two words.
  predicate AreGaps(gaps: seq<string>) {
    && (forall i :: 0 <= i < |gaps| ==> Blank(gaps[i]))
    && forall i :: 0 < i < |gaps| - 1 ==> gaps[i] != ""
  }

  /** Splitting finds exactly the words, however they are spaced. */
  lemma {:induction false} SplitSpaced(ws: seq<string>, gaps: seq<string>)
    requires AllWords(ws) && |gaps| == |ws| + 1 && AreGaps(gaps)
    ensures Split(Spaced(ws, gaps)) == ws
  {
    hide IsSpace;
    assert Blank(gaps[0]);
    if ws == [] {
      LStripBlank(gaps[0], "");
      assert gaps[0] + "" == gaps[0];
    } else {
      var w, rest := ws[0], Spaced(ws[1..], gaps[1..]);
      assert IsWord(w);
      assert Blank(gaps[1]);
      if |ws| > 1 {
        assert gaps[1] != "" && rest[0] == gaps[1][0];
      } else {
        assert rest == gaps[1];
      }
      assert AreGaps(gaps[1..]);
      assert forall i :: 0 <= i < |ws[1..]| ==> ws[1..][i] == ws[i + 1];
      SplitSpaced(ws[1..], gaps[1..]);
      LStripBlank(gaps[0], w + rest);
      WordLengthIs(w, rest);
      assert (w + rest)[..|w|] == w && (w + rest)[|w|..] == rest;
      assert LStrip(w + rest) == w + rest;
      assert ws == [w] + ws[1..];
    }
  }

  // ---------- matching ----------

  datatype Candidate = Candidate(id: string, question: string)

  function HasId(id: string): Candidate -> bool {
    (m: Candidate) => id != "" && m.id == id
  }

  function SameQuestion(wanted: string): Candidate -> bool {
    (m: Candidate) => Normalize(m.question) == wanted
  }

  function CloseQuestion(wanted: string): Candidate -> bool {
    (m: Candidate) =>
      wanted != "" && (Contains(Normalize(m.question), wanted) || Contains(wanted, Normalize(m.question)))
  }

  // How well a market fits a reference; a smaller class is better, 3 is no fit.
  function Class(id: string, question: string, m: Candidate): nat {
    var wanted := Normalize(question);
    if HasId(id)(m) then 0
    else if SameQuestion(wanted)(m) then 1
    else if CloseQuestion(wanted)(m) then 2
    else 3
  }

  // The one text is a part of the other.
  ghost predicate PartOf(part: string, whole: string) {
    exists lead, trail :: whole == lead + part + trail
  }

  lemma ContainsIsPart(whole: string, part: string)
    ensures Contains(whole, part) <==> PartOf(part, whole)
  {
    if Contains(whole, part) {
      var i :| 0 <= i <= |whole| && OccursAt(whole, part, i);
      assert whole == whole[..i] + part + whole[i + |part|..];
    }
    if PartOf(part, whole) {
      var lead, trail :| whole == lead + part + trail;
      assert OccursAt(whole, part, |lead|);
    }
  }

  /** The classes: the market with the wanted id; one whose question has the same words; and one whose
      question is a part of the wanted one, which is not blank, or has it as a part. */
  lemma ClassMeans(id: string, question: string, m: Candidate)
    ensures Class(id, question, m) == 0 <==> id != "" && m.id == id
    ensures Class(id, question, m) <= 1 <==> (id != "" && m.id == id) || SameWords(Split(m.question), Split(question))
    ensures var own, wanted := Normalize(m.question), Normalize(question);
            Class(id, question, m) <= 2
            <==> || (id != "" && m.id == id) || SameWords(Split(m.question), Split(question))
                 || (wanted != "" && (PartOf(wanted, own) || PartOf(own, wanted)))
    ensures Class(id, question, m) <= 3
  {
    hide Normalize, Split, Contains, PartOf;
    SameQuestionIff(m.question, question);
    ContainsIsPart(Normalize(m.question), Normalize(question));
    ContainsIsPart(Normalize(question), Normalize(m.question));
  }

  function FirstIn(markets: seq<Candidate>, accept: Candidate -> bool): Option<Candidate> {
    if markets == [] then None
    else if accept(markets[0]) then Some(markets[0])
    else FirstIn(markets[1..], accept)
  }

  function MatchMarketReference(id: string, question: string, markets: seq<Candidate>): Option<Candidate> {
    var wanted := Normalize(question);
    var byId := if id != "" then FirstIn(markets, HasId(id)) else None;
    if byId.Some? then byId
    else
      var equal := FirstIn(markets, SameQuestion(wanted));
      if equal.Some? then equal else FirstIn(markets, CloseQuestion(wanted))
  }

  // The first accepted market, or the end of the list.
  lemma {:induction false} FirstInIs(markets: seq<Candidate>, accept: Candidate -> bool) returns (i: nat)
    ensures i <= |markets| && forall j :: 0 <= j < i ==> !accept(markets[j])
    ensures if i < |markets| then accept(markets[i]) && FirstIn(markets, accept) == Some(markets[i])
            else FirstIn(markets, accept) == None
  {
    if markets == [] || accept(markets[0]) {
      i := 0;
    } else {
      var k := FirstInIs(markets[1..], accept);
      i := k + 1;
      assert forall j :: 1 <= j < i ==> markets[j] == markets[1..][j - 1];
    }
  }

  // Market i is the first of the best class.
  ghost predicate BestAt(id: string, question: string, markets: seq<Candidate>, i: nat) {
    && i < |markets| && Class(id, question, markets[i]) < 3
    && (forall j :: 0 <= j < |markets| ==> Class(id, question, markets[i]) <= Class(id, question, markets[j]))
    && (forall j :: 0 <= j < i ==> Class(id, question, markets[i]) < Class(id, question, markets[j]))
  }

  /** The answer is the first market of the best class, and there is none exactly when no market fits
      at all. */
  lemma MatchIsBest(id: string, question: string, markets: seq<Candidate>)
    ensures var r := MatchMarketReference(id, question, markets);
            && (r == None <==> forall i :: 0 <= i < |markets| ==> Class(id, question, markets[i]) == 3)
            && (r.Some? ==> exists i: nat :: BestAt(id, question, markets, i) && markets[i] == r.value)
  {
    var wanted := Normalize(question);
    var i := FirstInIs(markets, HasId(id));
    var j := FirstInIs(markets, SameQuestion(wanted));
    var k := FirstInIs(markets, CloseQuestion(wanted));
    var best := if i < |markets| then i else if j < |markets| then j else k;
    if best < |markets| {
      ClassAt(id, question, markets, i, j, k);
      assert BestAt(id, question, markets, best);
    } else {
      assert forall n :: 0 <= n < |markets| ==> Class(id, question, markets[n]) == 3;
    }
  }

  lemma ClassAt(id: string, question: string, markets: seq<Candidate>, i: nat, j: nat, k: nat)
    requires i <= |markets| && (forall n :: 0 <= n < i ==> !HasId(id)(markets[n]))
    requires i < |markets| ==> HasId(id)(markets[i])
    requires j <= |markets| && (forall n :: 0 <= n < j ==> !SameQuestion(Normalize(question))(markets[n]))
    requires j < |markets| ==> SameQuestion(Normalize(question))(markets[j])
    requires k <= |markets| && (forall n :: 0 <= n < k ==> !CloseQuestion(Normalize(question))(markets[n]))
    requires k < |markets| ==> CloseQuestion(Normalize(question))(markets[k])
    ensures var best := if i < |markets| then i else if j < |markets| then j else k;
            best < |markets| ==> BestAt(id, question, markets, best)
  {
    hide Normalize;
  }

  /** Only the normal form of the question matters, on either side: questions with the same normal
      form get the same answer, and the normalised question gets it too. */
  lemma MatchDependsOnNormalForm(id: string, q1: string, q2: string, markets: seq<Candidate>)
    requires Normalize(q1) == Normalize(q2)
    ensures MatchMarketReference(id, q1, markets) == MatchMarketReference(id, q2, markets)
    ensures MatchMarketReference(id, Normalize(q1), markets) == MatchMarketReference(id, q1, markets)
  {
    NormalizeIdempotent(q1);
    SameClassSameAnswer(id, q1, q2, markets);
    SameClassSameAnswer(id, Normalize(q1), q1, markets);
  }

  lemma SameClassSameAnswer(id: string, q1: string, q2: string, markets: seq<Candidate>)
    requires Normalize(q1) == Normalize(q2)
    ensures MatchMarketReference(id, q1, markets) == MatchMarketReference(id, q2, markets)
  {
    MatchIsBest(id, q1, markets);
    MatchIsBest(id, q2, markets);
    assert forall m :: Class(id, q1, m) == Class(id, q2, m);
    var r1, r2 := MatchMarketReference(id, q1, markets), MatchMarketReference(id, q2, markets);
    if r1.Some? && r2.Some? {
      var i: nat :| BestAt(id, q1, markets, i) && markets[i] == r1.value;
      var j: nat :| BestAt(id, q2, markets, j) && markets[j] == r2.value;
      assert i == j;
    }
  }

  /** A market whose question is blank is contained in every question: wherever it stands in the
      list, every reference gets an answer. */
  lemma BlankQuestionMatchesAnything(id: string, question: string, markets: seq<Candidate>, i: nat)
    requires i < |markets| && Normalize(markets[i].question) == ""
    ensures MatchMarketReference(id, question, markets).Some?
  {
    var wanted := Normalize(question);
    assert OccursAt(wanted, "", 0);
    assert Contains(wanted, "");
    MatchIsBest(id, question, markets);
    assert Class(id, question, markets[i]) <= 2;
  }

  /** A market fits every question if and only if its own is blank. */
  lemma FitsEveryQuestionIff(m: Candidate)
    ensures (forall question :: Class("", question, m) <= 2) <==> Normalize(m.question) == ""
  {
    if Normalize(m.question) == "" {
      forall question
        ensures Class("", question, m) <= 2
      {
        BlankQuestionMatchesAnything("", question, [m], 0);
        MatchIsBest("", question, [m]);
        assert Class("", question, [m][0]) != 3;
      }
    } else {
      var question := Unfitting(m);
      assert Class("", question, m) == 3;
    }
  }

  // A question that a market does not fit: a longer word made of a letter the market's question
  // does not begin with.
  lemma Unfitting(m: Candidate) returns (question: string)
    requires Normalize(m.question) != ""
    ensures Class("", question, m) == 3
  {
    var own := Normalize(m.question);
    var letter := if own[0] == 'a' then 'b' else 'a';
    question := seq(|own| + 1, i => letter);
    NormalizeWord(question);
    assert !Contains(own, question);
    assert forall i: nat :: i + |own| <= |question| && question[i..i + |own|] == own ==> own[0] == question[i];
    assert !Contains(question, own);
  }

  lemma NormalizeWord(w: string)
    requires IsWord(w) && LowerCase(w)
    ensures Normalize(w) == w
  {
    assert Join([w]) == w;
    LowerOfLowerCase(w);
    StripOfJoin([w]);
    SplitJoin([w]);
  }
}
